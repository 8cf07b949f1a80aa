/**
 * The cast-file parser: format detection by the first line, the two
 * generations' parsers, and `parse` / `validate`, which map their failures to
 * `AsciinemaError`s.  `decode` stands for `JSON.parse` throughout.
 */
module Parser {
  import opened Wrappers
  import opened JsString
  import opened Json
  import opened Cast
  import opened Errors

  /** The messages the parser throws or wraps. */
  const V1EventMessage: string := "Invalid v1 event format"
  const V1ShapeMessage: string := "Invalid v1 format: expected array with at least 2 elements"
  const LinePrefix: string := "Failed to parse event at line "
  const V2EventPrefix: string := "Invalid v2 event format at line "
  const V2ShapeMessage: string := "Invalid v2 format: expected at least 2 lines"
  const UnknownMessage: string := "Unknown or invalid cast file format"
  const ParsePrefix: string := "Failed to parse "
  const FormatInfix: string := " format: "

  /** `content.trim().split('\n')`. */
  function Lines(content: string): (lines: seq<string>)
    ensures |lines| >= 1
  {
    Split(Trim(content), '\n')
  }

  /** `detectFormat`: whitespace-only content is unknown; otherwise only the
      first line of the trimmed content is decoded.  An object whose `version`
      is 2 is v2; a non-empty array whose element 0 is an object with `version`
      1 is v1; everything else, a first line that is not JSON included, is
      unknown.  (A null first value, or a null element 0, makes the source read
      a property of null; the TypeError is caught and also gives unknown.) */
  function DetectFormat(content: string, decode: Decoder): (f: Format)
    ensures AllWhiteSpace(content) ==> f == Unknown
    ensures decode(Lines(content)[0]).SyntaxError? ==> f == Unknown
    ensures f == V2 <==>
      !AllWhiteSpace(content) && decode(Lines(content)[0]).Parsed? && decode(Lines(content)[0]).value.JObject?
      && HasVersion(decode(Lines(content)[0]).value, 2.0)
    ensures f == V1 <==>
      && !AllWhiteSpace(content) && decode(Lines(content)[0]).Parsed?
      && var first := decode(Lines(content)[0]).value;
         first.JArray? && |first.items| > 0 && first.items[0].JObject? && HasVersion(first.items[0], 1.0)
  {
    if AllWhiteSpace(content) then Unknown
    else
      match decode(Lines(content)[0])
      case SyntaxError(_) => Unknown
      case Parsed(first) =>
        if first.JObject? && HasVersion(first, 2.0) then V2
        else if first.JArray? && |first.items| > 0 && first.items[0].JObject? && HasVersion(first.items[0], 1.0) then V1
        else Unknown
  }

  /** `value || fallback` for a header dimension. */
  function OrDefault(v: Option<Json>, fallback: real): Json {
    if Truthy(v) then v.value else JNumber(fallback)
  }

  /** The header object literal both parsers build.  Reading `width` of a null
      header throws; otherwise `width` and `height` take 80 and 24 when the
      recording's value is missing or falsy, the other fields are copied, and
      `idle_time_limit` and `env` are read only for generation 2. */
  function MakeHeader(version: int, h: Json, v2: bool): (r: Result<CastHeader, string>)
    ensures r.Err? <==> h == JNull
    ensures r.Err? ==> r.error == NullRead("width")
    ensures r.Ok? ==> var hd := r.value;
      && hd.version == version
      && Truthy(Some(hd.width)) && Truthy(Some(hd.height))
      && (Truthy(Field(h, "width")) ==> Some(hd.width) == Field(h, "width"))
      && (!Truthy(Field(h, "width")) ==> hd.width == JNumber(80.0))
      && (Truthy(Field(h, "height")) ==> Some(hd.height) == Field(h, "height"))
      && (!Truthy(Field(h, "height")) ==> hd.height == JNumber(24.0))
      && hd.timestamp == Field(h, "timestamp") && hd.duration == Field(h, "duration")
      && hd.command == Field(h, "command") && hd.title == Field(h, "title")
      && hd.idleTimeLimit == (if v2 then Field(h, "idle_time_limit") else None)
      && hd.env == (if v2 then Field(h, "env") else None)
  {
    if h == JNull then Err(NullRead("width"))
    else
      Ok(CastHeader(
        version,
        OrDefault(Field(h, "width"), 80.0),
        OrDefault(Field(h, "height"), 24.0),
        Field(h, "timestamp"),
        Field(h, "duration"),
        if v2 then Field(h, "idle_time_limit") else None,
        Field(h, "command"),
        Field(h, "title"),
        if v2 then Field(h, "env") else None))
  }

  /** An array of at least three elements: `[time, tag, data, ...]`. */
  predicate IsEventTuple(j: Json) {
    j.JArray? && |j.items| >= 3
  }

  /** The event literal built from a tuple: only the string `"o"` is output,
      every other tag is input; time and data are copied. */
  function EventOf(j: Json): CastEvent
    requires IsEventTuple(j)
  {
    CastEvent(j.items[0], if j.items[1] == JString("o") then Output else Input, j.items[2])
  }

  /** `eventData.map(...)` of generation 1: fails on the first element that is
      not an event tuple, otherwise maps every element in order. */
  function V1Events(items: seq<Json>): (r: Result<seq<CastEvent>, string>)
    ensures r.Ok? <==> forall i :: 0 <= i < |items| ==> IsEventTuple(items[i])
    ensures r.Err? ==> r.error == V1EventMessage
    ensures r.Ok? ==> |r.value| == |items| && forall i :: 0 <= i < |items| ==> r.value[i] == EventOf(items[i])
  {
    if items == [] then Ok([])
    else if !IsEventTuple(items[0]) then Err(V1EventMessage)
    else
      match V1Events(items[1..])
      case Err(m) => Err(m)
      case Ok(rest) =>
        assert forall i :: 1 <= i < |items| ==> items[i] == items[1..][i - 1];
        Ok([EventOf(items[0])] + rest)
  }

  /** `parseV1`: the whole content is one JSON array, header first.  It fails
      exactly when the content is not JSON, is not an array of at least two
      elements, has a null header, or has an element after the header that is
      not an event tuple; on success there is one event per element after the
      header, each built from its tuple, in order. */
  function ParseV1(content: string, decode: Decoder): (r: Result<ParsedCast, string>)
    ensures r.Ok? <==>
      && decode(content).Parsed?
      && var data := decode(content).value;
         && data.JArray? && |data.items| >= 2 && data.items[0] != JNull
         && forall i :: 1 <= i < |data.items| ==> IsEventTuple(data.items[i])
    ensures r.Ok? ==> var items := decode(content).value.items;
      && r.value.format == V1 && r.value.header.version == 1
      && r.value.header.idleTimeLimit == None && r.value.header.env == None
      && |r.value.events| == |items| - 1 >= 1
      && forall i :: 0 <= i < |r.value.events| ==> r.value.events[i] == EventOf(items[i + 1])
    ensures decode(content).Parsed? && !(decode(content).value.JArray? && |decode(content).value.items| >= 2) ==>
      r == Err(V1ShapeMessage)
  {
    match decode(content)
    case SyntaxError(m) => Err(m)
    case Parsed(data) =>
      if !data.JArray? || |data.items| < 2 then Err(V1ShapeMessage)
      else
        assert forall i :: 1 <= i < |data.items| ==> data.items[i] == data.items[1..][i - 1];
        match MakeHeader(1, data.items[0], false)
        case Err(m) => Err(m)
        case Ok(header) =>
          match V1Events(data.items[1..])
          case Err(m) => Err(m)
          case Ok(events) => Ok(ParsedCast(header, events, V1))
  }

  /** The message wrapped around a failure on 0-based line `i`; it names the
      1-based line number `i + 1`. */
  function LineFailure(i: nat, message: string): string {
    LinePrefix + IntToString(i + 1) + ": " + message
  }

  /** Generation-2 event line `i`, trimmed: it succeeds exactly when its JSON
      is an event tuple, giving that tuple's event; a failure names line `i + 1`. */
  function V2Event(line: string, i: nat, decode: Decoder): (r: Result<CastEvent, string>)
  {
    match decode(Trim(line))
    case SyntaxError(m) => Err(LineFailure(i, m))
    case Parsed(j) =>
      if IsEventTuple(j) then Ok(EventOf(j))
      else Err(LineFailure(i, V2EventPrefix + IntToString(i + 1)))
  }

  /** What the loop of `parseV2` makes of one line: a blank line is skipped,
      any other line gives an event or fails. */
  datatype LineStep = Blank | Good(event: CastEvent) | Bad(message: string)

  /** Line `i` of a generation-2 recording, as the loop of `parseV2` treats it. */
  function StepOf(line: string, i: nat, decode: Decoder): LineStep {
    if AllWhiteSpace(line) then Blank
    else
      match V2Event(line, i, decode)
      case Ok(e) => Good(e)
      case Err(m) => Bad(m)
  }

  /** The step of every line, in order. */
  function LineSteps(lines: seq<string>, decode: Decoder): (steps: seq<LineStep>)
    ensures |steps| == |lines|
    ensures forall i :: 0 <= i < |lines| ==> steps[i] == StepOf(lines[i], i, decode)
  {
    seq(|lines|, i requires 0 <= i < |lines| => StepOf(lines[i], i, decode))
  }

  /** Line `j` is blank or holds an event tuple. */
  predicate GoodLine(lines: seq<string>, j: nat, decode: Decoder)
    requires j < |lines|
  {
    !StepOf(lines[j], j, decode).Bad?
  }

  /** Prepends events to a successful remainder; a failed remainder stays failed. */
  function Prepend(e: seq<CastEvent>, r: Result<seq<CastEvent>, string>): Result<seq<CastEvent>, string> {
    match r
    case Ok(rest) => Ok(e + rest)
    case Err(m) => Err(m)
  }

  lemma PrependNothing(r: Result<seq<CastEvent>, string>)
    ensures Prepend([], r) == r
  {
    if r.Ok? {
      assert [] + r.value == r.value;
    }
  }

  lemma PrependTwice(a: seq<CastEvent>, b: seq<CastEvent>, r: Result<seq<CastEvent>, string>)
    ensures Prepend(a, Prepend(b, r)) == Prepend(a + b, r)
  {
    if r.Ok? {
      assert a + (b + r.value) == (a + b) + r.value;
    }
  }

  /** The events of steps `i..`: blank steps are skipped, the first bad step
      fails the whole run. */
  function Collect(steps: seq<LineStep>, i: nat): Result<seq<CastEvent>, string>
    requires i <= |steps|
    decreases |steps| - i
  {
    if i == |steps| then Ok([])
    else
      match steps[i]
      case Blank => Collect(steps, i + 1)
      case Bad(m) => Err(m)
      case Good(e) => Prepend([e], Collect(steps, i + 1))
  }

  /** The indices of the steps from `i` on that are not blank. */
  function NonBlank(steps: seq<LineStep>, i: nat): (r: seq<nat>)
    requires i <= |steps|
    ensures forall k :: 0 <= k < |r| ==> i <= r[k] < |steps| && !steps[r[k]].Blank?
    decreases |steps| - i
  {
    if i == |steps| then []
    else if steps[i].Blank? then NonBlank(steps, i + 1)
    else [i] + NonBlank(steps, i + 1)
  }

  /** `NonBlank` lists the steps in increasing order. */
  lemma {:induction false} NonBlankIncreasing(steps: seq<LineStep>, i: nat)
    requires i <= |steps|
    ensures forall k, l :: 0 <= k < l < |NonBlank(steps, i)| ==> NonBlank(steps, i)[k] < NonBlank(steps, i)[l]
    decreases |steps| - i
  {
    if i < |steps| {
      NonBlankIncreasing(steps, i + 1);
      var rest := NonBlank(steps, i + 1);
      if !steps[i].Blank? {
        var r := [i] + rest;
        assert NonBlank(steps, i) == r;
        forall k, l | 0 <= k < l < |r| ensures r[k] < r[l] {
          assert r[l] == rest[l - 1];
          if k > 0 {
            assert r[k] == rest[k - 1];
            assert rest[k - 1] < rest[l - 1];
          } else {
            assert r[0] == i && i + 1 <= rest[l - 1];
          }
        }
      }
    }
  }

  /** `NonBlank` lists every step that is not blank. */
  lemma {:induction false} NonBlankComplete(steps: seq<LineStep>, i: nat)
    requires i <= |steps|
    ensures forall j :: i <= j < |steps| && !steps[j].Blank? ==> j in NonBlank(steps, i)
    decreases |steps| - i
  {
    if i < |steps| {
      NonBlankComplete(steps, i + 1);
      if !steps[i].Blank? {
        assert NonBlank(steps, i) == [i] + NonBlank(steps, i + 1);
      }
    }
  }

  /** The run of steps `i..` succeeds exactly when none of them is bad. */
  lemma {:induction false} CollectOk(steps: seq<LineStep>, i: nat)
    requires i <= |steps|
    ensures Collect(steps, i).Ok? <==> forall j :: i <= j < |steps| ==> !steps[j].Bad?
    decreases |steps| - i
  {
    if i < |steps| {
      CollectOk(steps, i + 1);
      assert Collect(steps, i).Ok? <==> !steps[i].Bad? && Collect(steps, i + 1).Ok?;
    }
  }

  /** A successful run of steps `i..` has one event per step that is not
      blank, in order: event `k` is the one step `NonBlank(steps, i)[k]` gives. */
  lemma {:induction false} CollectInOrder(steps: seq<LineStep>, i: nat)
    requires i <= |steps|
    requires Collect(steps, i).Ok?
    ensures |Collect(steps, i).value| == |NonBlank(steps, i)|
    ensures forall k :: 0 <= k < |NonBlank(steps, i)| ==> steps[NonBlank(steps, i)[k]] == Good(Collect(steps, i).value[k])
    decreases |steps| - i
  {
    if i < |steps| {
      CollectInOrder(steps, i + 1);
      if steps[i].Good? {
        var rest := Collect(steps, i + 1).value;
        var idx := NonBlank(steps, i + 1);
        var events := [steps[i].event] + rest;
        var all := [i] + idx;
        assert Collect(steps, i).value == events;
        assert NonBlank(steps, i) == all;
        forall k | 0 <= k < |all| ensures steps[all[k]] == Good(events[k]) {
          if k > 0 {
            assert events[k] == rest[k - 1] && all[k] == idx[k - 1];
          }
        }
      }
    }
  }

  /** A failed run of steps `i..` fails with the message of its first bad step. */
  lemma {:induction false} CollectFirstFailure(steps: seq<LineStep>, i: nat)
    requires i <= |steps|
    requires Collect(steps, i).Err?
    ensures exists j :: (i <= j < |steps| && steps[j] == Bad(Collect(steps, i).error)
      && forall k :: i <= k < j ==> !steps[k].Bad?)
    decreases |steps| - i
  {
    if !steps[i].Bad? {
      CollectFirstFailure(steps, i + 1);
      var j :| i + 1 <= j < |steps| && steps[j] == Bad(Collect(steps, i + 1).error)
        && forall k :: i + 1 <= k < j ==> !steps[k].Bad?;
      assert forall k :: i <= k < j ==> !steps[k].Bad?;
    }
  }

  /** What `parseV2` computes from the lines of the trimmed content: a header
      line and at least one more line, the header read from line 1 and the
      events from the rest. */
  function V2FromLines(lines: seq<string>, decode: Decoder): Result<ParsedCast, string> {
    if |lines| < 2 then Err(V2ShapeMessage)
    else
      match decode(lines[0])
      case SyntaxError(m) => Err(m)
      case Parsed(h) =>
        match MakeHeader(2, h, true)
        case Err(m) => Err(m)
        case Ok(header) =>
          match Collect(LineSteps(lines, decode), 1)
          case Err(m) => Err(m)
          case Ok(events) => Ok(ParsedCast(header, events, V2))
  }

  function ParsedV2(content: string, decode: Decoder): Result<ParsedCast, string> {
    V2FromLines(Lines(content), decode)
  }

  /** `parseV2`: split the trimmed content into lines and parse them. */
  method ParseV2(content: string, decode: Decoder) returns (r: Result<ParsedCast, string>)
    ensures r == ParsedV2(content, decode)
  {
    r := ParseV2Lines(Lines(content), decode);
  }

  /** `parseV2` refuses content that is a single line once trimmed with the
      `expected at least 2 lines` message, whatever the decoder; any newline in
      the trimmed content gives at least two lines. */
  lemma V2ShapeFailure(content: string, decode: Decoder)
    ensures '\n' !in Trim(content) ==> ParsedV2(content, decode) == Err(V2ShapeMessage)
    ensures '\n' in Trim(content) ==> |Lines(content)| >= 2
  {
    var t := Trim(content);
    if '\n' !in t {
      SplitWithoutSeparator(t, '\n');
    }
  }

  /** The body of `parseV2` after the split: the header line, then the loop
      over lines 2.. that skips blank lines and pushes one event per non-blank
      line, returning at the first bad line. */
  method ParseV2Lines(lines: seq<string>, decode: Decoder) returns (r: Result<ParsedCast, string>)
    ensures r == V2FromLines(lines, decode)
  {
    if |lines| < 2 {
      return Err(V2ShapeMessage);
    }
    var headerData := decode(lines[0]);
    if headerData.SyntaxError? {
      return Err(headerData.message);
    }
    var header := MakeHeader(2, headerData.value, true);
    if header.Err? {
      return Err(header.error);
    }
    ghost var steps := LineSteps(lines, decode);
    var events: seq<CastEvent> := [];
    var i := 1;
    PrependNothing(Collect(steps, 1));
    while i < |lines|
      invariant 1 <= i <= |lines|
      invariant Collect(steps, 1) == Prepend(events, Collect(steps, i))
    {
      assert steps[i] == StepOf(lines[i], i, decode);
      var line := Trim(lines[i]);
      if line != "" {
        var event := V2Event(lines[i], i, decode);
        if event.Err? {
          return Err(event.error);
        }
        PrependTwice(events, [event.value], Collect(steps, i + 1));
        events := events + [event.value];
      }
      i := i + 1;
    }
    assert events + [] == events;
    return Ok(ParsedCast(header.value, events, V2));
  }

  function FormatName(f: Format): string {
    match f
    case V1 => "v1"
    case V2 => "v2"
    case Unknown => "unknown"
  }

  /** What `parse` computes: unknown content fails with INVALID_CAST_FORMAT;
      a failure of the detected generation's parser fails with PARSING_FAILED
      and a message naming the generation. */
  function ParseResult(content: string, decode: Decoder): Result<ParsedCast, AsciinemaError> {
    var format := DetectFormat(content, decode);
    if format == Unknown then Err(AsciinemaError(InvalidCastFormat, UnknownMessage))
    else
      var r := if format == V1 then ParseV1(content, decode) else ParsedV2(content, decode);
      match r
      case Ok(cast) => Ok(cast)
      case Err(m) => Err(AsciinemaError(ParsingFailed, ParsePrefix + FormatName(format) + FormatInfix + m))
  }

  /** `parse`: computes `ParseResult`, whose shape `ParseResultShape` states. */
  method Parse(content: string, decode: Decoder) returns (r: Result<ParsedCast, AsciinemaError>)
    ensures r == ParseResult(content, decode)
    ensures (r.Err? && r.error.kind == InvalidCastFormat) <==> DetectFormat(content, decode) == Unknown
    ensures r.Err? ==> r.error.kind == InvalidCastFormat || r.error.kind == ParsingFailed
    ensures r.Ok? ==> r.value.format == DetectFormat(content, decode) != Unknown
    ensures r.Ok? ==> r.value.header.version == (if r.value.format == V1 then 1 else 2)
    ensures r.Ok? ==> |r.value.events| >= 1
  {
    var format := DetectFormat(content, decode);
    if format == Unknown {
      r := Err(AsciinemaError(InvalidCastFormat, UnknownMessage));
    } else {
      var parsed;
      if format == V1 {
        parsed := ParseV1(content, decode);
      } else {
        parsed := ParseV2(content, decode);
      }
      if parsed.Err? {
        r := Err(AsciinemaError(ParsingFailed, ParsePrefix + FormatName(format) + FormatInfix + parsed.error));
      } else {
        r := Ok(parsed.value);
      }
    }
    ParseResultShape(content, decode);
  }

  /** What `parse` promises: INVALID_CAST_FORMAT exactly when detection says
      unknown, every other failure is PARSING_FAILED, and a parsed cast
      carries the detected format, the matching header version and at least
      one event. */
  lemma ParseResultShape(content: string, decode: Decoder)
    ensures var r := ParseResult(content, decode);
      && ((r.Err? && r.error.kind == InvalidCastFormat) <==> DetectFormat(content, decode) == Unknown)
      && (r.Err? ==> r.error.kind == InvalidCastFormat || r.error.kind == ParsingFailed)
      && (r.Ok? ==> r.value.format == DetectFormat(content, decode) != Unknown)
      && (r.Ok? ==> r.value.header.version == (if r.value.format == V1 then 1 else 2))
      && (r.Ok? ==> |r.value.events| >= 1)
  {
    var format := DetectFormat(content, decode);
    if format == V1 {
      ParseResultV1(content, decode);
    } else if format == V2 {
      ParseResultV2(content, decode);
    }
  }

  /** Detected v1: a parsed cast is v1's, with header version 1 and at least
      one event; otherwise the failure is PARSING_FAILED. */
  lemma ParseResultV1(content: string, decode: Decoder)
    requires DetectFormat(content, decode) == V1
    ensures var r := ParseResult(content, decode);
      && (r.Err? ==> r.error.kind == ParsingFailed)
      && (r.Ok? ==> r.value.format == V1 && r.value.header.version == 1 && |r.value.events| >= 1)
  {
  }

  /** Detected v2: a parsed cast is v2's, with header version 2 and at least
      one event; otherwise the failure is PARSING_FAILED. */
  lemma ParseResultV2(content: string, decode: Decoder)
    requires DetectFormat(content, decode) == V2
    ensures var r := ParseResult(content, decode);
      && (r.Err? ==> r.error.kind == ParsingFailed)
      && (r.Ok? ==> r.value.format == V2 && r.value.header.version == 2 && |r.value.events| >= 1)
  {
    if ParsedV2(content, decode).Ok? {
      ParsedV2OfContent(content, decode);
    }
  }

  /** A successful generation-2 parse of content that is not whitespace only
      is tagged v2, has header version 2 and at least one event. */
  lemma ParsedV2OfContent(content: string, decode: Decoder)
    requires !AllWhiteSpace(content) && ParsedV2(content, decode).Ok?
    ensures var cast := ParsedV2(content, decode).value;
      cast.format == V2 && cast.header.version == 2 && |cast.events| >= 1
  {
    LastLineNonBlank(content);
    ParsedV2NonEmpty(Lines(content), decode);
  }

  /** A successful generation-2 parse whose last line is not blank is tagged
      v2, has header version 2 and at least one event. */
  lemma ParsedV2NonEmpty(lines: seq<string>, decode: Decoder)
    requires V2FromLines(lines, decode).Ok? && !AllWhiteSpace(lines[|lines| - 1])
    ensures var cast := V2FromLines(lines, decode).value;
      cast.format == V2 && cast.header.version == 2 && |cast.events| >= 1
  {
    ParsedV2Shape(lines, decode);
    EventLineExists(lines, decode);
  }

  /** `validate`: true exactly when `parse` succeeds; it never fails itself. */
  method Validate(content: string, decode: Decoder) returns (valid: bool)
    ensures valid <==> ParseResult(content, decode).Ok?
  {
    var r := Parse(content, decode);
    valid := r.Ok?;
  }

  /** A successful generation-2 parse is tagged v2, has header version 2, and
      has one event per non-blank line after the header line, in order. */
  lemma ParsedV2Shape(lines: seq<string>, decode: Decoder)
    requires V2FromLines(lines, decode).Ok?
    ensures var cast := V2FromLines(lines, decode).value;
      var idx := NonBlank(LineSteps(lines, decode), 1);
      && cast.format == V2 && cast.header.version == 2
      && |cast.events| == |idx|
      && forall k :: 0 <= k < |idx| ==>
           && !AllWhiteSpace(lines[idx[k]])
           && var d := decode(Trim(lines[idx[k]]));
              d.Parsed? && IsEventTuple(d.value) && cast.events[k] == EventOf(d.value)
  {
    var steps := LineSteps(lines, decode);
    CollectInOrder(steps, 1);
    var idx := NonBlank(steps, 1);
    var events := V2FromLines(lines, decode).value.events;
    forall k | 0 <= k < |idx|
      ensures && !AllWhiteSpace(lines[idx[k]])
              && var d := decode(Trim(lines[idx[k]])); d.Parsed? && IsEventTuple(d.value) && events[k] == EventOf(d.value)
    {
      StepGood(lines[idx[k]], idx[k], decode, events[k]);
    }
  }

  /** A line whose step is an event decodes to that event's tuple. */
  lemma StepGood(line: string, i: nat, decode: Decoder, e: CastEvent)
    requires StepOf(line, i, decode) == Good(e)
    ensures !AllWhiteSpace(line)
    ensures var d := decode(Trim(line)); d.Parsed? && IsEventTuple(d.value) && e == EventOf(d.value)
  {
  }

  /** Two or more lines whose last is not blank have an event line after the
      first; so a successful generation-2 parse has at least one event. */
  lemma EventLineExists(lines: seq<string>, decode: Decoder)
    requires |lines| >= 2 && !AllWhiteSpace(lines[|lines| - 1])
    ensures |NonBlank(LineSteps(lines, decode), 1)| >= 1
  {
    var steps := LineSteps(lines, decode);
    var last := |lines| - 1;
    assert steps[last] == StepOf(lines[last], last, decode);
    NonBlankComplete(steps, 1);
    assert last in NonBlank(steps, 1);
  }

  /** With a readable header, a generation-2 parse succeeds exactly when every
      line after it is blank or an event tuple. */
  lemma ParsedV2Succeeds(lines: seq<string>, decode: Decoder)
    requires |lines| >= 2 && decode(lines[0]).Parsed? && decode(lines[0]).value != JNull
    ensures V2FromLines(lines, decode).Ok? <==> forall j :: 1 <= j < |lines| ==> GoodLine(lines, j, decode)
  {
    var steps := LineSteps(lines, decode);
    CollectOk(steps, 1);
    assert forall j :: 1 <= j < |lines| ==> (GoodLine(lines, j, decode) <==> !steps[j].Bad?);
  }

  /** A generation-2 parse whose header is readable fails only at its first
      bad event line, with that line's message. */
  lemma ParsedV2FirstFailure(lines: seq<string>, decode: Decoder)
    requires |lines| >= 2 && decode(lines[0]).Parsed? && decode(lines[0]).value != JNull
    requires V2FromLines(lines, decode).Err?
    ensures exists j :: (1 <= j < |lines| && !AllWhiteSpace(lines[j])
      && V2Event(lines[j], j, decode) == Err(V2FromLines(lines, decode).error)
      && (exists m :: V2FromLines(lines, decode).error == LineFailure(j, m))
      && forall k :: 1 <= k < j ==> GoodLine(lines, k, decode))
  {
    var steps := LineSteps(lines, decode);
    var error := V2FromLines(lines, decode).error;
    assert Collect(steps, 1) == Err(error);
    CollectFirstFailure(steps, 1);
    var j :| 1 <= j < |steps| && steps[j] == Bad(error) && forall k :: 1 <= k < j ==> !steps[k].Bad?;
    FailureAt(lines, decode, j, error);
  }

  /** The first bad step, at `j`, is a non-blank line whose event fails with
      the message naming line `j`, and every line between the header and it
      is good. */
  lemma FailureAt(lines: seq<string>, decode: Decoder, j: nat, error: string)
    requires 1 <= j < |lines|
    requires LineSteps(lines, decode)[j] == Bad(error)
    requires forall k :: 1 <= k < j ==> !LineSteps(lines, decode)[k].Bad?
    ensures !AllWhiteSpace(lines[j]) && V2Event(lines[j], j, decode) == Err(error)
    ensures exists m :: error == LineFailure(j, m)
    ensures forall k :: 1 <= k < j ==> GoodLine(lines, k, decode)
  {
    var steps := LineSteps(lines, decode);
    StepBad(lines[j], j, decode, error);
    forall k | 1 <= k < j ensures GoodLine(lines, k, decode) {
      assert steps[k] == StepOf(lines[k], k, decode);
    }
  }

  /** A line whose step fails is not blank, and its message names its 1-based
      line number. */
  lemma StepBad(line: string, i: nat, decode: Decoder, m: string)
    requires StepOf(line, i, decode) == Bad(m)
    ensures !AllWhiteSpace(line) && V2Event(line, i, decode) == Err(m)
    ensures exists m' :: m == LineFailure(i, m')
  {
    V2EventFailure(line, i, decode);
  }

  /** A failing event line's message names its 1-based line number. */
  lemma V2EventFailure(line: string, i: nat, decode: Decoder)
    requires V2Event(line, i, decode).Err?
    ensures exists m :: V2Event(line, i, decode).error == LineFailure(i, m)
  {
    match decode(Trim(line))
    case SyntaxError(m) =>
      assert V2Event(line, i, decode).error == LineFailure(i, m);
    case Parsed(_) =>
      assert V2Event(line, i, decode).error == LineFailure(i, V2EventPrefix + IntToString(i + 1));
  }

  /** Content that is not whitespace only has a last line that is not blank. */
  lemma LastLineNonBlank(content: string)
    requires !AllWhiteSpace(content)
    ensures var lines := Lines(content); !AllWhiteSpace(lines[|lines| - 1])
  {
    var t := Trim(content);
    SplitLast(t, '\n');
    var lines := Lines(content);
    var last := lines[|lines| - 1];
    assert !IsWhiteSpace(last[|last| - 1]);
  }

  /** Detection reads the first line and nothing else: whatever follows a
      first line without surrounding whitespace, the verdict is that line's. */
  lemma DetectByFirstLine(a: string, rest: string, decode: Decoder)
    requires a != "" && '\n' !in a && !IsWhiteSpace(a[0]) && !IsWhiteSpace(a[|a| - 1])
    ensures Lines(a + "\n" + rest)[0] == a
    ensures DetectFormat(a + "\n" + rest, decode) == DetectFormat(a, decode)
  {
    FirstLineOf(a, rest);
    OneLine(a);
    assert (a + "\n" + rest)[0] == a[0];
  }

  /** The first line of `a + "\n" + rest` is `a`. */
  lemma FirstLineOf(a: string, rest: string)
    requires a != "" && '\n' !in a && !IsWhiteSpace(a[0]) && !IsWhiteSpace(a[|a| - 1])
    ensures Lines(a + "\n" + rest)[0] == a
  {
    var s := a + "\n" + rest;
    assert s == a + ("\n" + rest);
    TrimKeepsFront(a, "\n" + rest);
    var t := Trim(s);
    if |t| == |a| {
      assert t == a;
      SplitWithoutSeparator(a, '\n');
    } else {
      var u := ("\n" + rest)[..|t| - |a|];
      assert u == "\n" + u[1..];
      assert t == a + "\n" + u[1..];
      SplitHead(a, u[1..], '\n');
    }
  }

  /** A line without surrounding whitespace is its own only line. */
  lemma OneLine(a: string)
    requires a != "" && '\n' !in a && !IsWhiteSpace(a[0]) && !IsWhiteSpace(a[|a| - 1])
    ensures Lines(a) == [a]
  {
    TrimKeepsFront(a, []);
    assert a + [] == a;
    assert Trim(a) == a;
    SplitWithoutSeparator(a, '\n');
  }

  /** The quirk of generation-1 detection: a recording whose array is spread
      over several lines is unknown when its first line alone is not JSON,
      even if the whole text is a well-formed generation-1 array. */
  lemma SpreadV1IsUnknown(a: string, rest: string, decode: Decoder)
    requires a != "" && '\n' !in a && !IsWhiteSpace(a[0]) && !IsWhiteSpace(a[|a| - 1])
    requires decode(a).SyntaxError?
    ensures DetectFormat(a + "\n" + rest, decode) == Unknown
  {
    DetectByFirstLine(a, rest, decode);
  }
}
