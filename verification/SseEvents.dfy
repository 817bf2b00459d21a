/** How the usage inspector cuts a server-sent event stream into events, one byte at a time. */
module SseEvents {
  import opened JsonGrammar

  const EVENT_LIMIT: nat := 65_536

  /** `events` are those handed on so far, each with the blank line that ended it. */
  datatype Stream = Stream(event: bytes, lineStart: nat, disabled: bool, events: seq<Event>)

  datatype Event = Event(text: bytes, blank: bytes)

  const Fresh := Stream([], 0, false, [])

  predicate IsBlank(line: bytes) {
    line == [] || line == [CR]
  }

  function Step(s: Stream, b: byte): Stream {
    if s.disabled then s
    else if |s.event| == EVENT_LIMIT then s.(disabled := true, event := [])
    else
      var event := s.event + [b];
      if b != LF || s.lineStart > |s.event| then s.(event := event)
      else if !IsBlank(s.event[s.lineStart..]) then s.(event := event, lineStart := |event|)
      else Stream([], 0, false, s.events + [Event(event[..s.lineStart], event[s.lineStart..])])
  }

  function Read(s: Stream, data: bytes): Stream {
    if data == [] then s else Step(Read(s, data[..|data| - 1]), data[|data| - 1])
  }

  lemma {:induction false} ChunksDoNotMatter(s: Stream, a: bytes, b: bytes)
    ensures Read(s, a + b) == Read(Read(s, a), b)
    decreases |b|
  {
    hide Step;
    if b == [] {
      assert a + b == a;
    } else {
      assert (a + b)[..|a + b| - 1] == a + b[..|b| - 1];
      ChunksDoNotMatter(s, a, b[..|b| - 1]);
    }
  }

  // What the events are

  function Written(events: seq<Event>): bytes {
    if events == [] then [] else Written(events[..|events| - 1]) + events[|events| - 1].text + events[|events| - 1].blank
  }

  predicate OneLine(line: bytes) {
    forall k :: 0 <= k < |line| ==> line[k] != LF
  }

  /** Whole lines, none of them blank. */
  predicate Paragraph(text: bytes)
    decreases |text|
  {
    text == [] || exists k :: 0 <= k < |text| && LastLine(text, k) && Paragraph(text[..k])
  }

  predicate LastLine(text: bytes, k: nat)
    requires k < |text|
  {
    text[|text| - 1] == LF && OneLine(text[k..|text| - 1]) && !IsBlank(text[k..|text| - 1])
  }

  predicate Proper(e: Event) {
    Paragraph(e.text) && (e.blank == [LF] || e.blank == [CR, LF])
  }

  /** The lines gathered so far make a paragraph, and an unfinished line follows them. */
  predicate Gathering(s: Stream) {
    !s.disabled ==> s.lineStart <= |s.event| && Paragraph(s.event[..s.lineStart]) && OneLine(s.event[s.lineStart..])
  }

  ghost predicate Faithful(s: Stream, data: bytes) {
    && Gathering(s) && AllProper(s.events)
    && (!s.disabled ==> Written(s.events) + s.event == data)
  }

  lemma ParagraphMore(text: bytes, line: bytes)
    requires Paragraph(text) && OneLine(line) && !IsBlank(line)
    ensures Paragraph(text + line + [LF])
  {
    var all := text + line + [LF];
    var k := |text|;
    assert all[..k] == text && all[k..|all| - 1] == line;
    assert LastLine(all, k);
  }

  lemma WrittenMore(events: seq<Event>, e: Event)
    ensures Written(events + [e]) == Written(events) + e.text + e.blank
  {
    assert (events + [e])[..|events|] == events;
  }

  lemma StepIsFaithful(s: Stream, data: bytes, b: byte)
    requires Faithful(s, data)
    ensures Faithful(Step(s, b), data + [b])
  {
    hide Paragraph;
    hide Written;
    if s.disabled || |s.event| == EVENT_LIMIT {
      return;
    }
    var line := s.event[s.lineStart..];
    assert s.event == s.event[..s.lineStart] + line;
    var event := s.event + [b];
    if b != LF {
      assert event[..s.lineStart] == s.event[..s.lineStart] && event[s.lineStart..] == line + [b];
      assert Written(s.events) + event == Written(s.events) + s.event + [b];
    } else if !IsBlank(line) {
      ParagraphMore(s.event[..s.lineStart], line);
      assert event == s.event[..s.lineStart] + line + [LF];
      assert event[..|event|] == event && event[|event|..] == [];
      assert Written(s.events) + event == Written(s.events) + s.event + [b];
    } else {
      var e := Event(event[..s.lineStart], event[s.lineStart..]);
      assert e.text == s.event[..s.lineStart] && e.blank == line + [LF];
      assert line == [CR] ==> e.blank == [CR, LF];
      WrittenMore(s.events, e);
      assert e.text + e.blank == event;
      assert Written(s.events) + e.text + e.blank == Written(s.events) + event == Written(s.events) + s.event + [b];
      assert Written(s.events + [e]) + [] == Written(s.events + [e]);
      NoParagraph();
    }
  }

  lemma NoParagraph()
    ensures Paragraph([]) && Written([]) == []
  {
  }

  /** However the stream is cut into chunks, its events are the paragraphs between blank lines: they,
  their blank lines and the unfinished rest make up the stream, and none contains a blank line. */
  lemma {:induction false} EventsAreParagraphs(data: bytes)
    ensures Faithful(Read(Fresh, data), data)
    decreases |data|
  {
    hide Step;
    hide Faithful;
    if data == [] {
      assert Faithful(Fresh, []) by {
        FreshIsFaithful();
      }
    } else {
      var init, last := data[..|data| - 1], data[|data| - 1];
      EventsAreParagraphs(init);
      StepIsFaithful(Read(Fresh, init), init, last);
      assert init + [last] == data;
    }
  }

  lemma FreshIsFaithful()
    ensures Faithful(Fresh, [])
  {
    assert Fresh.event[..0] == [];
  }

  // Reading back what was written

  lemma {:induction false} GivenUp(s: Stream, data: bytes)
    requires s.disabled
    ensures Read(s, data) == s
    decreases |data|
  {
    if data != [] {
      GivenUp(s, data[..|data| - 1]);
    }
  }

  lemma ReadLast(s: Stream, data: bytes, b: byte)
    ensures Read(s, data + [b]) == Step(Read(s, data), b)
  {
    hide Step;
    assert (data + [b])[..|data|] == data;
  }

  /** Bytes of one line are gathered as long as there is room. */
  lemma {:induction false} ReadLine(s: Stream, line: bytes)
    requires !s.disabled && |s.event| <= EVENT_LIMIT && OneLine(line)
    ensures if |s.event| + |line| <= EVENT_LIMIT then Read(s, line) == s.(event := s.event + line) else Read(s, line).disabled
    decreases |line|
  {
    if line == [] {
      assert s.event + line == s.event;
    } else {
      var init, last := line[..|line| - 1], line[|line| - 1];
      ReadLine(s, init);
      assert s.event + init + [last] == s.event + line;
    }
  }

  /** The end of a line joins it to the lines before, or ends the event if the line is blank. */
  lemma ReadWholeLine(s: Stream, line: bytes)
    requires !s.disabled && |s.event| <= EVENT_LIMIT && s.lineStart == |s.event| && OneLine(line)
    ensures var r, event := Read(s, line + [LF]), s.event + line + [LF];
            if |event| > EVENT_LIMIT then r.disabled
            else if IsBlank(line) then r == Stream([], 0, false, s.events + [Event(s.event, line + [LF])])
            else r == Stream(event, |event|, false, s.events)
  {
    hide Read;
    ReadLine(s, line);
    ReadLast(s, line, LF);
    var event := s.event + line;
    assert event[s.lineStart..] == line;
    assert (event + [LF])[..s.lineStart] == s.event && (event + [LF])[s.lineStart..] == line + [LF];
  }

  function Ready(events: seq<Event>): Stream {
    Stream([], 0, false, events)
  }

  /** The last line of a paragraph and what is before it. */
  lemma LastOf(text: bytes) returns (k: nat, line: bytes)
    requires Paragraph(text) && text != []
    ensures k < |text| && Paragraph(text[..k]) && text == text[..k] + (line + [LF]) && OneLine(line) && !IsBlank(line)
  {
    k :| 0 <= k < |text| && LastLine(text, k) && Paragraph(text[..k]);
    line := text[k..|text| - 1];
  }

  lemma {:induction false} ReadParagraph(events: seq<Event>, text: bytes)
    requires Paragraph(text)
    ensures var r := Read(Ready(events), text);
            if |text| <= EVENT_LIMIT then r == Stream(text, |text|, false, events) else r.disabled
    decreases |text|
  {
    hide Paragraph;
    if text == [] {
    } else {
      hide Read;
      hide IsBlank;
      hide OneLine;
      var k, line := LastOf(text);
      ReadParagraph(events, text[..k]);
      ChunksDoNotMatter(Ready(events), text[..k], line + [LF]);
      if k <= EVENT_LIMIT {
        ReadWholeLine(Stream(text[..k], k, false, events), line);
        assert text[..k] + line + [LF] == text;
      } else {
        GivenUp(Read(Ready(events), text[..k]), line + [LF]);
      }
    }
  }

  predicate Fits(e: Event) {
    |e.text| + |e.blank| <= EVENT_LIMIT
  }

  predicate AllFit(events: seq<Event>) {
    forall i :: 0 <= i < |events| ==> Fits(events[i])
  }

  predicate AllProper(events: seq<Event>) {
    forall i :: 0 <= i < |events| ==> Proper(events[i])
  }

  lemma OneMore(events: seq<Event>)
    requires events != []
    ensures var init, last := events[..|events| - 1], events[|events| - 1];
            && events == init + [last] && Written(events) == Written(init) + (last.text + last.blank)
            && (AllFit(events) <==> AllFit(init) && Fits(last)) && (AllProper(events) <==> AllProper(init) && Proper(last))
  {
    hide Fits;
    hide Proper;
    var init, last := events[..|events| - 1], events[|events| - 1];
    assert events == init + [last];
    assert Written(init) + last.text + last.blank == Written(init) + (last.text + last.blank);
  }

  /** A blank line is blank, and is all that is between the paragraph and the end of the event. */
  lemma BlankLine(e: Event) returns (line: bytes)
    requires Proper(e)
    ensures e.blank == line + [LF] && IsBlank(line) && OneLine(line) && e.text + line + [LF] == e.text + e.blank
  {
    line := if e.blank == [LF] then [] else [CR];
  }

  lemma ReadEvent(events: seq<Event>, e: Event)
    requires Proper(e)
    ensures var r := Read(Ready(events), e.text + e.blank);
            if Fits(e) then r == Ready(events + [e]) else r.disabled
  {
    ReadParagraph(events, e.text);
    hide Read;
    hide Paragraph;
    ChunksDoNotMatter(Ready(events), e.text, e.blank);
    var line := BlankLine(e);
    hide Proper;
    hide IsBlank;
    hide OneLine;
    if |e.text| <= EVENT_LIMIT {
      ReadWholeLine(Stream(e.text, |e.text|, false, events), line);
    } else {
      GivenUp(Read(Ready(events), e.text), e.blank);
    }
  }

  lemma {:induction false} ReadEvents(events: seq<Event>)
    requires AllProper(events)
    ensures var r := Read(Fresh, Written(events));
            if AllFit(events) then r == Ready(events) else r.disabled
    decreases |events|
  {
    hide AllFit;
    hide AllProper;
    hide Fits;
    hide Proper;
    if events == [] {
      NoEvents();
    } else {
      hide Read;
      hide Written;
      var init, last := events[..|events| - 1], events[|events| - 1];
      OneMore(events);
      ReadEvents(init);
      ChunksDoNotMatter(Fresh, Written(init), last.text + last.blank);
      if AllFit(init) {
        ReadEvent(init, last);
      } else {
        GivenUp(Read(Fresh, Written(init)), last.text + last.blank);
      }
    }
  }

  lemma NoEvents()
    ensures AllFit([])
  {
  }

  /** Round trip: of a stream of proper events and an unfinished rest exactly these are read, unless one
  of them is longer than the limit, and then, and only then, the reading has given up. */
  lemma ReadsWhatWasWritten(events: seq<Event>, lines: bytes, line: bytes)
    requires AllProper(events) && Paragraph(lines) && OneLine(line)
    ensures var r := Read(Fresh, Written(events) + lines + line);
            if AllFit(events) && |lines| + |line| <= EVENT_LIMIT
            then r == Stream(lines + line, |lines|, false, events)
            else r.disabled
  {
    hide AllProper;
    hide AllFit;
    hide Read;
    hide Paragraph;
    ReadEvents(events);
    var a := Read(Fresh, Written(events));
    ChunksDoNotMatter(Fresh, Written(events), lines);
    ChunksDoNotMatter(Fresh, Written(events) + lines, line);
    var b := Read(a, lines);
    if a.disabled {
      GivenUp(a, lines);
      GivenUp(a, line);
    } else {
      ReadParagraph(events, lines);
      if b.disabled {
        GivenUp(b, line);
      } else {
        ReadLine(b, line);
      }
    }
  }

  class Splitter {
    var sseEvent: bytes
    var sseLineStart: nat
    var disabled: bool
    var events: seq<Event>

    function Shown(): Stream
      reads this
    {
      Stream(sseEvent, sseLineStart, disabled, events)
    }

    constructor ()
      ensures Shown() == Fresh
    {
      sseEvent, sseLineStart, disabled, events := [], 0, false, [];
    }

    method Write(data: bytes)
      requires Gathering(Shown())
      modifies this
      ensures Shown() == Read(old(Shown()), data) && Gathering(Shown())
    {
      for i := 0 to |data|
        invariant Shown() == Read(old(Shown()), data[..i]) && Gathering(Shown())
      {
        assert data[..i + 1][..i] == data[..i];
        WriteByte(data[i]);
      }
      assert data[..|data|] == data;
    }

    method WriteByte(current: byte)
      requires Gathering(Shown())
      modifies this
      ensures Shown() == Step(old(Shown()), current) && Gathering(Shown())
    {
      GatheringStays(Shown(), current);
      hide Gathering;
      if disabled {
        return;
      }
      InRange(Shown());
      if |sseEvent| == EVENT_LIMIT {
        disabled, sseEvent := true, [];
        return;
      }
      sseEvent := sseEvent + [current];
      if current != LF {
        return;
      }
      var line := sseEvent[sseLineStart..|sseEvent| - 1];
      assert line == old(sseEvent)[sseLineStart..];
      if |line| > 0 && line[|line| - 1] == CR {
        line := line[..|line| - 1];
      }
      if |line| != 0 {
        sseLineStart := |sseEvent|;
        return;
      }
      events := events + [Event(sseEvent[..sseLineStart], sseEvent[sseLineStart..])];
      sseEvent, sseLineStart := [], 0;
    }
  }

  lemma InRange(s: Stream)
    requires Gathering(s) && !s.disabled
    ensures s.lineStart <= |s.event|
  {
  }

  lemma GatheringStays(s: Stream, b: byte)
    requires Gathering(s)
    ensures Gathering(Step(s, b))
  {
    var t := s.(events := []);
    StepIsFaithful(t, t.event, b) by {
      NoParagraph();
      assert [] + t.event == t.event;
    }
    hide Step;
    assert Gathering(Step(t, b));
    SameGathering(s, b);
  }

  lemma SameGathering(s: Stream, b: byte)
    ensures var t := Step(s.(events := []), b);
            t.event == Step(s, b).event && t.lineStart == Step(s, b).lineStart
  {
  }
}
