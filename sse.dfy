/**
 * The `event:` / `id:` / `retry:` / `data:` framing of `send` in
 * _site/datastar-sdk.js, together with the receiving side it is written for:
 * the event-stream interpretation of section 9.2.6 of the WHATWG HTML Living
 * Standard. The round trip between the two is what makes the framing correct.
 */
module ServerSentEvents {
  import opened Basics
  import opened Strings
  import opened JsValues

  /** `DefaultSseRetryDurationMs`: a retry equal to it is not sent. */
  const DefaultRetryDurationMs := 1000

  /** Appends the newline to each field line. */
  function Terminated(fields: seq<string>): (lines: seq<string>)
    ensures |lines| == |fields|
    ensures forall i :: 0 <= i < |fields| ==> lines[i] == fields[i] + "\n"
  {
    if fields == [] then [] else [fields[0] + "\n"] + Terminated(fields[1..])
  }

  /** Neither kind of line terminator occurs in `s`. */
  predicate LineFree(s: string)
  {
    forall i :: 0 <= i < |s| ==> s[i] != '\n' && s[i] != '\r'
  }

  /** `idLine`: present only for a truthy event id. */
  function IdLine(eventId: JsValue): seq<string>
  {
    if Truthy(eventId) then ["id: " + TemplateText(eventId) + "\n"] else []
  }

  /** The condition under which `retryLine` is not empty. */
  predicate SendsRetry(retryDuration: JsValue)
  {
    Truthy(retryDuration) && retryDuration != JsNumber(DefaultRetryDurationMs)
  }

  /** `retryLine`. */
  function RetryLine(retryDuration: JsValue): seq<string>
  {
    if SendsRetry(retryDuration) then ["retry: " + TemplateText(retryDuration) + "\n"] else []
  }

  /** `dataLines.map(data => `data: ${data}\n`)`. */
  function DataLines(dataLines: seq<string>): (lines: seq<string>)
    ensures |lines| == |dataLines|
    ensures forall i :: 0 <= i < |dataLines| ==> lines[i] == "data: " + dataLines[i] + "\n"
  {
    if dataLines == [] then [] else ["data: " + dataLines[0] + "\n"] + DataLines(dataLines[1..])
  }

  /** `send(event, dataLines, { eventId, retryDuration })`: the returned `eventLines`. */
  function Send(event: string, dataLines: seq<string>, eventId: JsValue, retryDuration: JsValue): (lines: seq<string>)
    ensures |lines| >= 2 && lines[0] == "event: " + event + "\n" && lines[|lines| - 1] == "\n"
  {
    ["event: " + event + "\n"] + IdLine(eventId) + RetryLine(retryDuration) + DataLines(dataLines) + ["\n"]
  }

  /** The data lines without their newlines. */
  function DataFields(dataLines: seq<string>): (fields: seq<string>)
    ensures |fields| == |dataLines|
    ensures forall i :: 0 <= i < |dataLines| ==> fields[i] == "data: " + dataLines[i]
  {
    if dataLines == [] then [] else ["data: " + dataLines[0]] + DataFields(dataLines[1..])
  }

  function IdField(eventId: JsValue): seq<string>
  {
    if Truthy(eventId) then ["id: " + TemplateText(eventId)] else []
  }

  function RetryField(retryDuration: JsValue): seq<string>
  {
    if SendsRetry(retryDuration) then ["retry: " + TemplateText(retryDuration)] else []
  }

  /** The lines of `Send` without their newlines. */
  function SendFields(event: string, dataLines: seq<string>, eventId: JsValue, retryDuration: JsValue): seq<string>
  {
    ["event: " + event] + IdField(eventId) + RetryField(retryDuration) + DataFields(dataLines) + [""]
  }

  /**
   * The event line comes first, the data lines follow in order after the
   * optional id and retry lines, and a lone newline closes the event.
   */
  lemma SendShape(event: string, dataLines: seq<string>, eventId: JsValue, retryDuration: JsValue)
    ensures var lines := Send(event, dataLines, eventId, retryDuration);
      var k := 1 + (if Truthy(eventId) then 1 else 0) + (if SendsRetry(retryDuration) then 1 else 0);
      && |lines| == k + |dataLines| + 1
      && lines[0] == "event: " + event + "\n"
      && (forall i :: 0 <= i < |dataLines| ==> lines[k + i] == "data: " + dataLines[i] + "\n")
      && lines[|lines| - 1] == "\n"
  {
    var head := ["event: " + event + "\n"] + IdLine(eventId) + RetryLine(retryDuration);
    var data := DataLines(dataLines);
    var lines := head + data + ["\n"];
    assert Send(event, dataLines, eventId, retryDuration) == lines;
    forall i | 0 <= i < |dataLines| ensures lines[|head| + i] == "data: " + dataLines[i] + "\n" {
      assert lines[|head| + i] == data[i];
    }
  }

  /** Some line starts with `prefix`. */
  predicate AnyStartsWith(lines: seq<string>, prefix: string)
  {
    exists i :: 0 <= i < |lines| && StartsWith(lines[i], prefix)
  }

  lemma AnyStartsWithConcat(a: seq<string>, b: seq<string>, prefix: string)
    ensures AnyStartsWith(a + b, prefix) <==> AnyStartsWith(a, prefix) || AnyStartsWith(b, prefix)
  {
    if AnyStartsWith(a + b, prefix) {
      var i :| 0 <= i < |a + b| && StartsWith((a + b)[i], prefix);
      if i < |a| {
        assert (a + b)[i] == a[i];
      } else {
        assert (a + b)[i] == b[i - |a|];
      }
    }
    if AnyStartsWith(a, prefix) {
      var i :| 0 <= i < |a| && StartsWith(a[i], prefix);
      assert (a + b)[i] == a[i];
    }
    if AnyStartsWith(b, prefix) {
      var i :| 0 <= i < |b| && StartsWith(b[i], prefix);
      assert (a + b)[|a| + i] == b[i];
    }
  }

  /** No line starts with `prefix` when every line starts with another character. */
  lemma NoneStartsWith(lines: seq<string>, prefix: string)
    requires |prefix| > 0
    requires forall i :: 0 <= i < |lines| ==> |lines[i]| > 0 && lines[i][0] != prefix[0]
    ensures !AnyStartsWith(lines, prefix)
  {
  }

  /** The data lines and the closing newline start with `d` and a newline. */
  lemma TailStartsWith(dataLines: seq<string>, prefix: string)
    requires |prefix| > 0 && prefix[0] != 'd' && prefix[0] != '\n'
    ensures !AnyStartsWith(DataLines(dataLines) + ["\n"], prefix)
  {
    var tail := DataLines(dataLines) + ["\n"];
    forall i | 0 <= i < |tail| ensures |tail[i]| > 0 && tail[i][0] != prefix[0] {
      if i < |dataLines| {
        assert tail[i] == "data: " + dataLines[i] + "\n";
      } else {
        assert tail[i] == "\n";
      }
    }
    NoneStartsWith(tail, prefix);
  }

  /** A line of `send` starts with `prefix` when a line of one of its parts does. */
  lemma SendStartsWith(event: string, dataLines: seq<string>, eventId: JsValue, retryDuration: JsValue, prefix: string)
    ensures AnyStartsWith(Send(event, dataLines, eventId, retryDuration), prefix)
        <==> AnyStartsWith(["event: " + event + "\n"], prefix) || AnyStartsWith(IdLine(eventId), prefix)
             || AnyStartsWith(RetryLine(retryDuration), prefix) || AnyStartsWith(DataLines(dataLines) + ["\n"], prefix)
  {
    var first := ["event: " + event + "\n"];
    var id := IdLine(eventId);
    var retry := RetryLine(retryDuration);
    var tail := DataLines(dataLines) + ["\n"];
    assert Send(event, dataLines, eventId, retryDuration) == (first + id + retry) + tail;
    AnyStartsWithConcat(first + id + retry, tail, prefix);
    AnyStartsWithConcat(first + id, retry, prefix);
    AnyStartsWithConcat(first, id, prefix);
  }

  /** An `id:` line is sent exactly when the event id is truthy. */
  lemma SendsIdIff(event: string, dataLines: seq<string>, eventId: JsValue, retryDuration: JsValue)
    ensures var lines := Send(event, dataLines, eventId, retryDuration);
      (exists i :: 0 <= i < |lines| && StartsWith(lines[i], "id: ")) <==> Truthy(eventId)
  {
    var p := "id: ";
    SendStartsWith(event, dataLines, eventId, retryDuration, p);
    NoneStartsWith(["event: " + event + "\n"], p);
    NoneStartsWith(RetryLine(retryDuration), p);
    TailStartsWith(dataLines, p);
    if Truthy(eventId) {
      assert IdLine(eventId)[0][..4] == p;
    }
  }

  /** A `retry:` line is sent exactly when the duration is truthy and not the default. */
  lemma SendsRetryIff(event: string, dataLines: seq<string>, eventId: JsValue, retryDuration: JsValue)
    ensures var lines := Send(event, dataLines, eventId, retryDuration);
      (exists i :: 0 <= i < |lines| && StartsWith(lines[i], "retry: ")) <==> SendsRetry(retryDuration)
  {
    var p := "retry: ";
    SendStartsWith(event, dataLines, eventId, retryDuration, p);
    NoneStartsWith(["event: " + event + "\n"], p);
    NoneStartsWith(IdLine(eventId), p);
    TailStartsWith(dataLines, p);
    if SendsRetry(retryDuration) {
      assert RetryLine(retryDuration)[0][..7] == p;
    }
  }

  // ---------------------------------------------------------------------
  // The receiving side.
  // ---------------------------------------------------------------------

  /** A dispatched `MessageEvent`: its type, its data and its `lastEventId`. */
  datatype Event = Event(eventType: string, data: string, lastEventId: string)

  /** The buffers of the stream parser and the events dispatched so far. */
  datatype Parser = Parser(eventType: string, data: string, lastEventId: string, reconnectionTime: Option<nat>, events: seq<Event>)

  const Fresh := Parser("", "", "", None, [])

  /**
   * Splits a stream into lines at CRLF, LF or CR. The last element is the
   * text after the last terminator, which is not (yet) a line.
   */
  function Lines(s: string): (ls: seq<string>)
    ensures |ls| >= 1
    decreases |s|
  {
    if s == [] then [""]
    else if s[0] == '\n' then [""] + Lines(s[1..])
    else if s[0] == '\r' then
      if |s| > 1 && s[1] == '\n' then [""] + Lines(s[2..]) else [""] + Lines(s[1..])
    else
      var rest := Lines(s[1..]);
      [[s[0]] + rest[0]] + rest[1..]
  }

  /** "Process the field" with the given name and value. */
  function ApplyField(p: Parser, name: string, value: string): Parser
  {
    if name == "event" then p.(eventType := value)
    else if name == "data" then p.(data := p.data + value + "\n")
    else if name == "id" then
      if '\0' in value then p else p.(lastEventId := value)
    else if name == "retry" then
      if AllDigits(value) then p.(reconnectionTime := Some(ParseDecimal(value))) else p
    else p
  }

  /** "Dispatch the event" at a blank line: nothing is dispatched while the data buffer is empty. */
  function Dispatch(p: Parser): Parser
  {
    if p.data == "" then p.(eventType := "")
    else
      var e := Event(if p.eventType == "" then "message" else p.eventType, p.data[..|p.data| - 1], p.lastEventId);
      p.(events := p.events + [e], data := "", eventType := "")
  }

  /** One line of the stream: blank, comment, `name: value`, or a bare field name. */
  function ProcessLine(p: Parser, line: string): Parser
  {
    if line == "" then Dispatch(p)
    else if line[0] == ':' then p
    else
      match IndexOf(line, ":")
      case None => ApplyField(p, line, "")
      case Some(i) =>
        var value := line[i + 1..];
        ApplyField(p, line[..i], if value != "" && value[0] == ' ' then value[1..] else value)
  }

  function Feed(p: Parser, lines: seq<string>): Parser
    decreases |lines|
  {
    if lines == [] then p else Feed(ProcessLine(p, lines[0]), lines[1..])
  }

  /** What a client makes of a complete stream. */
  function Decode(stream: string): Parser
  {
    var lines := Lines(stream);
    Feed(Fresh, lines[..|lines| - 1])
  }

  /**
   * The last event id a client holds after one event with this id: none
   * when no `id:` line is sent, and none either when the id holds U+0000,
   * which the reader ignores.
   */
  function IdAfter(eventId: JsValue): string
  {
    if Truthy(eventId) && '\0' !in TemplateText(eventId) then TemplateText(eventId) else ""
  }

  /** The reconnection time a client takes from one event with this retry duration. */
  function RetryAfter(retryDuration: JsValue): Option<nat>
  {
    var text := TemplateText(retryDuration);
    if SendsRetry(retryDuration) && AllDigits(text) then Some(ParseDecimal(text)) else None
  }

  lemma {:induction false} FeedAppend(p: Parser, a: seq<string>, b: seq<string>)
    ensures Feed(p, a + b) == Feed(Feed(p, a), b)
    decreases |a|
  {
    if a != [] {
      assert (a + b)[0] == a[0] && (a + b)[1..] == a[1..] + b;
      FeedAppend(ProcessLine(p, a[0]), a[1..], b);
    } else {
      assert a + b == b;
    }
  }

  lemma {:induction false} LinesAfterField(f: string, rest: string)
    requires LineFree(f)
    ensures Lines(f + "\n" + rest) == [f] + Lines(rest)
    decreases |f|
  {
    if f != [] {
      assert (f + "\n" + rest)[1..] == f[1..] + "\n" + rest;
      LinesAfterField(f[1..], rest);
      assert [f[0]] + f[1..] == f;
    } else {
      assert (f + "\n" + rest)[1..] == rest;
    }
  }

  /** A stream of newline-terminated fields splits back into those fields. */
  lemma {:induction false} LinesTerminated(fields: seq<string>)
    requires forall i :: 0 <= i < |fields| ==> LineFree(fields[i])
    ensures Lines(Concat(Terminated(fields))) == fields + [""]
    decreases |fields|
  {
    if fields != [] {
      var t := Terminated(fields);
      assert t[1..] == Terminated(fields[1..]);
      LinesTerminated(fields[1..]);
      LinesAfterField(fields[0], Concat(t[1..]));
      assert Concat(t) == fields[0] + "\n" + Concat(t[1..]);
      assert fields == [fields[0]] + fields[1..];
    }
  }

  /** A `name: value` line sets field `name` to exactly `value`. */
  lemma FieldLine(p: Parser, name: string, value: string)
    requires name != "" && name[0] != ':'
    requires forall i :: 0 <= i < |name| ==> name[i] != ':'
    ensures ProcessLine(p, name + ": " + value) == ApplyField(p, name, value)
  {
    var line := name + ": " + value;
    OccursAtChar(line, ':', |name|);
    forall j | 0 <= j < |name| ensures !OccursAt(line, ":", j) {
      OccursAtChar(line, ':', j);
    }
    IndexOfFirst(line, ":", |name|);
    assert line[..|name|] == name;
    assert line[|name| + 1..] == " " + value;
    assert (" " + value)[1..] == value;
  }

  lemma {:induction false} FeedData(p: Parser, ds: seq<string>)
    ensures Feed(p, DataFields(ds)) == p.(data := p.data + Concat(Terminated(ds)))
    decreases |ds|
  {
    if ds == [] {
      assert p.data + Concat(Terminated(ds)) == p.data;
    } else {
      var rest := Concat(Terminated(ds[1..]));
      var q := p.(data := p.data + ds[0] + "\n");
      FeedDataLine(p, ds);
      FeedData(q, ds[1..]);
      assert q.data + rest == p.data + Concat(Terminated(ds)) by {
        TerminatedCons(ds);
        AppendAssoc(p.data, ds[0] + "\n", rest);
      }
    }
  }

  lemma AppendAssoc(a: string, b: string, c: string)
    ensures a + b + c == a + (b + c)
  {
  }

  /** The first `data:` line appends its value and a newline to the data buffer. */
  lemma FeedDataLine(p: Parser, ds: seq<string>)
    requires ds != []
    ensures Feed(p, DataFields(ds)) == Feed(p.(data := p.data + ds[0] + "\n"), DataFields(ds[1..]))
  {
    var fields := DataFields(ds);
    assert fields[0] == "data" + ": " + ds[0];
    FieldLine(p, "data", ds[0]);
    assert "data"[0] != "event"[0];
    assert ApplyField(p, "data", ds[0]) == p.(data := p.data + ds[0] + "\n");
    assert fields[1..] == DataFields(ds[1..]);
    assert Feed(p, fields) == Feed(ProcessLine(p, fields[0]), fields[1..]);
  }

  lemma TerminatedCons(ds: seq<string>)
    requires ds != []
    ensures Concat(Terminated(ds)) == ds[0] + "\n" + Concat(Terminated(ds[1..]))
  {
    var t := Terminated(ds);
    assert t[1..] == Terminated(ds[1..]);
  }

  /** The data buffer of a sent event, once its final newline is removed, is the data lines joined by newlines. */
  lemma {:induction false} TerminatedJoin(ds: seq<string>)
    requires |ds| > 0
    ensures Concat(Terminated(ds)) == JoinWith(ds, "\n") + "\n"
    decreases |ds|
  {
    var t := Terminated(ds);
    assert t[1..] == Terminated(ds[1..]);
    if |ds| > 1 {
      TerminatedJoin(ds[1..]);
    }
  }

  lemma TerminatedAppend(a: seq<string>, b: seq<string>)
    ensures Terminated(a + b) == Terminated(a) + Terminated(b)
  {
  }

  lemma SendTerminated(event: string, dataLines: seq<string>, eventId: JsValue, retryDuration: JsValue)
    ensures Send(event, dataLines, eventId, retryDuration) == Terminated(SendFields(event, dataLines, eventId, retryDuration))
  {
    var head := ["event: " + event] + IdField(eventId) + RetryField(retryDuration);
    TerminatedAppend(head + DataFields(dataLines), [""]);
    TerminatedAppend(head, DataFields(dataLines));
    TerminatedAppend(["event: " + event] + IdField(eventId), RetryField(retryDuration));
    TerminatedAppend(["event: " + event], IdField(eventId));
    assert Terminated(["event: " + event]) == ["event: " + event + "\n"];
    assert Terminated(IdField(eventId)) == IdLine(eventId);
    assert Terminated(RetryField(retryDuration)) == RetryLine(retryDuration);
    assert Terminated(DataFields(dataLines)) == DataLines(dataLines);
    assert "" + "\n" == "\n";
    assert Terminated([""]) == ["\n"];
  }

  lemma FeedEvent(event: string)
    ensures Feed(Fresh, ["event: " + event]) == Fresh.(eventType := event)
  {
    FieldLine(Fresh, "event", event);
    assert "event" + ": " + event == "event: " + event;
  }

  lemma FeedId(p: Parser, eventId: JsValue)
    ensures Feed(p, IdField(eventId))
         == if Truthy(eventId) && '\0' !in TemplateText(eventId) then p.(lastEventId := TemplateText(eventId)) else p
  {
    if Truthy(eventId) {
      FieldLine(p, "id", TemplateText(eventId));
      assert "id" + ": " + TemplateText(eventId) == IdField(eventId)[0];
    }
  }

  /** A `retry` field is taken only when its value is all digits. */
  lemma ApplyRetry(p: Parser, value: string)
    ensures ApplyField(p, "retry", value)
         == if AllDigits(value) then p.(reconnectionTime := Some(ParseDecimal(value))) else p
  {
    assert "retry"[0] != "event"[0] && "retry"[0] != "data"[0] && "retry"[0] != "id"[0];
  }

  lemma FeedOne(p: Parser, line: string)
    ensures Feed(p, [line]) == ProcessLine(p, line)
  {
    assert [line][1..] == [];
  }

  lemma FeedRetry(p: Parser, retryDuration: JsValue)
    requires p.reconnectionTime == None
    ensures Feed(p, RetryField(retryDuration)) == p.(reconnectionTime := RetryAfter(retryDuration))
  {
    var text := TemplateText(retryDuration);
    if SendsRetry(retryDuration) {
      assert RetryField(retryDuration) == ["retry: " + text];
      FeedRetryLine(p, text);
    } else {
      assert RetryField(retryDuration) == [];
    }
  }

  /** A `retry:` line sets the reconnection time when its value is all digits, and is ignored otherwise. */
  lemma FeedRetryLine(p: Parser, text: string)
    ensures Feed(p, ["retry: " + text])
         == if AllDigits(text) then p.(reconnectionTime := Some(ParseDecimal(text))) else p
  {
    var line := "retry: " + text;
    FieldLine(p, "retry", text);
    assert "retry" + ": " + text == line;
    ApplyRetry(p, text);
    FeedOne(p, line);
  }

  lemma FeedBlank(p: Parser)
    requires p.data != ""
    ensures Feed(p, [""]) == Dispatch(p)
  {
  }

  /** The event, id and retry fields set the event type, the last event id and the reconnection time. */
  lemma FeedHead(event: string, eventId: JsValue, retryDuration: JsValue)
    ensures Feed(Fresh, ["event: " + event] + IdField(eventId) + RetryField(retryDuration))
         == Parser(event, "", IdAfter(eventId), RetryAfter(retryDuration), [])
  {
    var e := ["event: " + event];
    var id := IdField(eventId);
    FeedEvent(event);
    var p1 := Fresh.(eventType := event);
    FeedAppend(Fresh, e, id);
    FeedId(p1, eventId);
    var p2 := p1.(lastEventId := IdAfter(eventId));
    FeedAppend(Fresh, e + id, RetryField(retryDuration));
    FeedRetry(p2, retryDuration);
  }

  /** Feeding the fields of one sent event to a fresh parser. */
  lemma FeedSent(event: string, dataLines: seq<string>, eventId: JsValue, retryDuration: JsValue)
    requires |dataLines| > 0
    ensures Feed(Fresh, SendFields(event, dataLines, eventId, retryDuration))
         == Parser("", "", IdAfter(eventId), RetryAfter(retryDuration),
                   [Event(if event == "" then "message" else event, JoinWith(dataLines, "\n"), IdAfter(eventId))])
  {
    var fields := HeadFields(event, eventId, retryDuration) + DataFields(dataLines);
    assert SendFields(event, dataLines, eventId, retryDuration) == fields + [""];
    var p4 := FeedFields(event, dataLines, eventId, retryDuration);
    FeedAppend(Fresh, fields, [""]);
    TerminatedJoin(dataLines);
    FeedBlank(p4);
    DispatchJoined(p4, dataLines);
  }

  /** The `event:`, `id:` and `retry:` lines `send` writes before the data. */
  function HeadFields(event: string, eventId: JsValue, retryDuration: JsValue): seq<string>
  {
    ["event: " + event] + IdField(eventId) + RetryField(retryDuration)
  }

  /** Before the closing blank line, the parser holds the event type, id, retry and the data read so far. */
  lemma FeedFields(event: string, dataLines: seq<string>, eventId: JsValue, retryDuration: JsValue) returns (p: Parser)
    ensures p == Parser(event, Concat(Terminated(dataLines)), IdAfter(eventId), RetryAfter(retryDuration), [])
    ensures Feed(Fresh, HeadFields(event, eventId, retryDuration) + DataFields(dataLines)) == p
  {
    var head := HeadFields(event, eventId, retryDuration);
    FeedHead(event, eventId, retryDuration);
    var p3 := Parser(event, "", IdAfter(eventId), RetryAfter(retryDuration), []);
    FeedAppend(Fresh, head, DataFields(dataLines));
    FeedData(p3, dataLines);
    p := p3.(data := Concat(Terminated(dataLines)));
  }

  /** A blank line after the data lines dispatches them, joined by newlines. */
  lemma DispatchJoined(p: Parser, dataLines: seq<string>)
    requires p.data == JoinWith(dataLines, "\n") + "\n" && p.events == []
    ensures Dispatch(p) == p.(events := [Event(if p.eventType == "" then "message" else p.eventType,
                                               JoinWith(dataLines, "\n"), p.lastEventId)],
                              data := "", eventType := "")
  {
    var joined := JoinWith(dataLines, "\n");
    assert p.data[..|p.data| - 1] == joined;
  }

  /**
   * The framing round trip: a client reading the lines `send` returns sees
   * exactly one event, with the event type, the data lines joined by
   * newlines, the event id and the retry duration that were sent, provided
   * no value contains a line terminator and the event has data at all. An
   * id holding U+0000 is sent but ignored by the reader, so the client keeps
   * no last event id (`IdAfter`).
   */
  lemma SendDecodes(event: string, dataLines: seq<string>, eventId: JsValue, retryDuration: JsValue)
    requires |dataLines| > 0
    requires LineFree(event) && LineFree(TemplateText(eventId)) && LineFree(TemplateText(retryDuration))
    requires forall i :: 0 <= i < |dataLines| ==> LineFree(dataLines[i])
    ensures Decode(Concat(Send(event, dataLines, eventId, retryDuration)))
         == Parser("", "", IdAfter(eventId), RetryAfter(retryDuration),
                   [Event(if event == "" then "message" else event, JoinWith(dataLines, "\n"), IdAfter(eventId))])
  {
    var fields := SendFields(event, dataLines, eventId, retryDuration);
    SendTerminated(event, dataLines, eventId, retryDuration);
    SendFieldsLineFree(event, dataLines, eventId, retryDuration);
    LinesTerminated(fields);
    assert (fields + [""])[..|fields|] == fields;
    FeedSent(event, dataLines, eventId, retryDuration);
  }

  /** No line holds a line terminator. */
  predicate AllLineFree(lines: seq<string>)
  {
    forall i :: 0 <= i < |lines| ==> LineFree(lines[i])
  }

  lemma AllLineFreeConcat(a: seq<string>, b: seq<string>)
    requires AllLineFree(a) && AllLineFree(b)
    ensures AllLineFree(a + b)
  {
    forall i | 0 <= i < |a + b| ensures LineFree((a + b)[i]) {
      if i < |a| {
        assert (a + b)[i] == a[i];
      } else {
        assert (a + b)[i] == b[i - |a|];
      }
    }
  }

  lemma LineFreeJoin(a: string, b: string)
    requires LineFree(a) && LineFree(b)
    ensures LineFree(a + b)
  {
    forall i | 0 <= i < |a + b| ensures (a + b)[i] != '\n' && (a + b)[i] != '\r' {
      if i < |a| {
        assert (a + b)[i] == a[i];
      } else {
        assert (a + b)[i] == b[i - |a|];
      }
    }
  }

  lemma SendFieldsLineFree(event: string, dataLines: seq<string>, eventId: JsValue, retryDuration: JsValue)
    requires LineFree(event) && LineFree(TemplateText(eventId)) && LineFree(TemplateText(retryDuration))
    requires forall i :: 0 <= i < |dataLines| ==> LineFree(dataLines[i])
    ensures var fields := SendFields(event, dataLines, eventId, retryDuration);
      forall i :: 0 <= i < |fields| ==> LineFree(fields[i])
  {
    var head := HeadFields(event, eventId, retryDuration);
    var data := DataFields(dataLines);
    HeadLineFree(event, eventId, retryDuration);
    DataLineFree(dataLines);
    assert AllLineFree([""]);
    AllLineFreeConcat(head, data);
    AllLineFreeConcat(head + data, [""]);
    assert SendFields(event, dataLines, eventId, retryDuration) == head + data + [""];
  }

  lemma HeadLineFree(event: string, eventId: JsValue, retryDuration: JsValue)
    requires LineFree(event) && LineFree(TemplateText(eventId)) && LineFree(TemplateText(retryDuration))
    ensures AllLineFree(HeadFields(event, eventId, retryDuration))
  {
    var first := ["event: " + event];
    var id := IdField(eventId);
    var retry := RetryField(retryDuration);
    FieldNamesLineFree();
    LineFreeJoin("event: ", event);
    if Truthy(eventId) {
      LineFreeJoin("id: ", TemplateText(eventId));
    }
    if SendsRetry(retryDuration) {
      LineFreeJoin("retry: ", TemplateText(retryDuration));
    }
    assert AllLineFree(first) && AllLineFree(id) && AllLineFree(retry);
    AllLineFreeConcat(first, id);
    AllLineFreeConcat(first + id, retry);
  }

  /** The field names `send` writes hold no line break. */
  lemma FieldNamesLineFree()
    ensures LineFree("event: ") && LineFree("id: ") && LineFree("retry: ") && LineFree("data: ")
  {
    FieldNameLineFree("event");
    FieldNameLineFree("id");
    FieldNameLineFree("retry");
    FieldNameLineFree("data");
  }

  lemma FieldNameLineFree(name: string)
    requires name == "event" || name == "id" || name == "retry" || name == "data"
    ensures LineFree(name + ": ")
  {
    forall i | 0 <= i < |name| ensures name[i] != '\n' && name[i] != '\r' {
      assert 'a' <= name[i] <= 'z';
    }
    LineFreeJoin(name, ": ");
  }

  lemma DataLineFree(dataLines: seq<string>)
    requires forall i :: 0 <= i < |dataLines| ==> LineFree(dataLines[i])
    ensures AllLineFree(DataFields(dataLines))
  {
    FieldNamesLineFree();
    var data := DataFields(dataLines);
    var prefix := "data: ";
    forall i | 0 <= i < |data| ensures LineFree(data[i]) {
      assert data[i] == prefix + dataLines[i];
      LineFreeJoin(prefix, dataLines[i]);
    }
  }

  /** A positive number other than the default comes back as the client's reconnection time; anything else leaves it alone. */
  lemma RetryNumberRoundTrip(n: SafeInteger)
    ensures RetryAfter(JsNumber(n)) == if n > 0 && n != DefaultRetryDurationMs then Some(n) else None
  {
    if n > 0 {
      DecimalRoundTrip(n);
    } else if n < 0 {
      assert TemplateText(JsNumber(n))[0] == '-';
    }
  }
}
