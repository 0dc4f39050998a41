/** The client's event-stream reader (frontend/src/lib/api.js), against an encoder
    for the format of sections 9.2.5 and 9.2.6 of the WHATWG HTML Living Standard. */
module EventStream {
  import opened Text

  // ---- frame boundaries -----------------------------------------------------

  /** Width of the frame separator at `i`, or 0: CRLF CRLF, LF LF or CR CR. */
  function Width(s: string, i: nat): (w: nat)
    ensures w > 0 ==> 2 <= w <= 4 && i + w <= |s|
  {
    if i + 4 <= |s| && s[i] == '\r' && s[i + 1] == '\n' && s[i + 2] == '\r' && s[i + 3] == '\n' then 4
    else if i + 2 <= |s| && s[i] == s[i + 1] && IsBreak(s[i]) then 2
    else 0
  }

  predicate IsBreak(c: char) {
    c == '\r' || c == '\n'
  }

  /** No separator starts before `n`. */
  predicate Clear(s: string, n: nat) {
    forall k :: 0 <= k < n ==> Width(s, k) == 0
  }

  function FirstSeparator(s: string, i: nat): (r: Option<nat>)
    requires i <= |s| && Clear(s, i)
    ensures r.Some? ==> r.value < |s| && Width(s, r.value) > 0 && Clear(s, r.value)
    ensures r.None? ==> Clear(s, |s|)
    decreases |s| - i
  {
    if i == |s| then None
    else if Width(s, i) > 0 then Some(i)
    else FirstSeparator(s, i + 1)
  }

  /** Complete frames of a text, and what is left over. */
  datatype Split = Split(frames: seq<string>, rest: string)

  function SplitOf(s: string): Split
    decreases |s|
  {
    match FirstSeparator(s, 0)
    case None => Split([], s)
    case Some(k) =>
      var tail := SplitOf(s[k + Width(s, k)..]);
      Split([s[..k]] + tail.frames, tail.rest)
  }

  /** The first separator decides the first frame. */
  lemma {:induction false} SplitAt(s: string, k: nat)
    requires k < |s| && Width(s, k) > 0 && Clear(s, k)
    ensures var tail := SplitOf(s[k + Width(s, k)..]);
            SplitOf(s) == Split([s[..k]] + tail.frames, tail.rest)
  {
    var f := FirstSeparator(s, 0);
    assert f == Some(k);
  }

  lemma {:induction false} SplitClear(s: string)
    requires Clear(s, |s|)
    ensures SplitOf(s) == Split([], s)
  {
  }

  lemma {:induction false} WidthOfDrop(s: string, c: nat, i: nat)
    requires c <= |s|
    ensures Width(s[c..], i) == Width(s, c + i)
  {
  }

  method SplitFrames(buffer: string) returns (frames: seq<string>, rest: string)
    ensures Split(frames, rest) == SplitOf(buffer)
  {
    hide SplitOf;
    frames := [];
    var start: nat, i: nat := 0, 0;
    assert buffer[0..] == buffer;
    while i < |buffer|
      invariant start <= i <= |buffer|
      invariant forall k :: start <= k < i ==> Width(buffer, k) == 0
      invariant SplitOf(buffer) == Split(frames + SplitOf(buffer[start..]).frames, SplitOf(buffer[start..]).rest)
    {
      var width := Width(buffer, i);
      if width == 0 {
        i := i + 1;
      } else {
        SplitInside(buffer, start, i);
        frames := frames + [buffer[start..i]];
        i := i + width;
        start := i;
      }
    }
    SplitTail(buffer, start);
    rest := buffer[start..];
  }

  lemma {:induction false} SplitInside(s: string, start: nat, i: nat)
    requires start <= i < |s| && Width(s, i) > 0
    requires forall k :: start <= k < i ==> Width(s, k) == 0
    ensures var tail := SplitOf(s[i + Width(s, i)..]);
            SplitOf(s[start..]) == Split([s[start..i]] + tail.frames, tail.rest)
  {
    hide SplitOf, Width;
    var t := s[start..];
    forall k: nat ensures Width(t, k) == Width(s, start + k) { WidthOfDrop(s, start, k); }
    SplitAt(t, i - start);
    var e := i - start + Width(t, i - start);
    assert t[e..] == s[start + e..] && t[..i - start] == s[start..i];
  }

  lemma {:induction false} SplitTail(s: string, start: nat)
    requires start <= |s|
    requires forall k :: start <= k < |s| ==> Width(s, k) == 0
    ensures SplitOf(s[start..]) == Split([], s[start..])
  {
    hide SplitOf, Width;
    forall k | 0 <= k < |s[start..]| ensures Width(s[start..], k) == 0 { WidthOfDrop(s, start, k); }
    SplitClear(s[start..]);
  }

  /** Text arriving later never moves a boundary already found. */
  lemma {:induction false} BoundaryStable(a: string, b: string, k: nat)
    requires k < |a| && Width(a, k) > 0 && Clear(a, k)
    ensures Width(a + b, k) == Width(a, k) && Clear(a + b, k)
  {
    var s := a + b;
    forall j | 0 <= j < k ensures Width(s, j) == 0 {
      assert Width(a, j) == 0;
      if j + 4 <= |a| {
      } else {
        assert j + 2 <= |a| && s[j] == a[j] && s[j + 1] == a[j + 1];
        assert s[k] == a[k] && s[k + 1] == a[k + 1];
      }
    }
  }

  /** Splitting is incremental: the frames of `a` followed by `b` are the frames of
      `a`, then the frames of `b` behind what `a` left over. */
  lemma {:induction false} SplitAppend(a: string, b: string)
    ensures var left, right := SplitOf(a), SplitOf(SplitOf(a).rest + b);
            SplitOf(a + b) == Split(left.frames + right.frames, right.rest)
    decreases |a|
  {
    hide Width, SplitOf;
    match FirstSeparator(a, 0)
    case None => SplitClear(a);
    case Some(k) =>
      var w := Width(a, k);
      SplitAppend(a[k + w..], b);
      SplitAt(a, k);
      BoundaryStable(a, b, k);
      AppendAfterDrop(a, b, k, w);
      SplitAt(a + b, k);
      AppendFrames(a[..k], SplitOf(a[k + w..]).frames, SplitOf(SplitOf(a[k + w..]).rest + b).frames);
  }

  lemma {:induction false} AppendAfterDrop(a: string, b: string, k: nat, w: nat)
    requires k + w <= |a|
    ensures (a + b)[..k] == a[..k] && (a + b)[k + w..] == a[k + w..] + b
  {
  }

  lemma {:induction false} AppendFrames(f: string, fs: seq<string>, gs: seq<string>)
    ensures [f] + (fs + gs) == ([f] + fs) + gs
  {
  }

  // ---- one frame ------------------------------------------------------------

  function FirstBreak(s: string, i: nat): (r: Option<nat>)
    requires i <= |s|
    ensures r.Some? ==> i <= r.value < |s| && IsBreak(s[r.value]) && forall k :: i <= k < r.value ==> !IsBreak(s[k])
    ensures r.None? ==> forall k :: i <= k < |s| ==> !IsBreak(s[k])
    decreases |s| - i
  {
    if i == |s| then None else if IsBreak(s[i]) then Some(i) else FirstBreak(s, i + 1)
  }

  predicate BreakFree(s: string) {
    forall i :: 0 <= i < |s| ==> !IsBreak(s[i])
  }

  function BreakWidth(s: string, i: nat): (w: nat)
    requires i < |s|
    ensures 1 <= w <= 2 && i + w <= |s|
  {
    if s[i] == '\r' && i + 1 < |s| && s[i + 1] == '\n' then 2 else 1
  }

  /** `s.split(/\r\n|\n|\r/)`. */
  function Lines(s: string): (lines: seq<string>)
    ensures |lines| > 0
    ensures forall i :: 0 <= i < |lines| ==> BreakFree(lines[i])
    decreases |s|
  {
    match FirstBreak(s, 0)
    case None => [s]
    case Some(k) => [s[..k]] + Lines(s[k + BreakWidth(s, k)..])
  }

  function IndexOf(s: string, c: char, i: nat): (r: Option<nat>)
    requires i <= |s|
    ensures r.Some? ==> i <= r.value < |s| && s[r.value] == c && forall k :: i <= k < r.value ==> s[k] != c
    ensures r.None? ==> forall k :: i <= k < |s| ==> s[k] != c
    decreases |s| - i
  {
    if i == |s| then None else if s[i] == c then Some(i) else IndexOf(s, c, i + 1)
  }

  /** What a frame's lines have set so far. */
  datatype Fields = Fields(event: string, id: Option<string>, data: seq<string>)

  const NO_FIELDS := Fields("message", None, [])

  function DropOneSpace(s: string): string {
    if s != "" && s[0] == ' ' then s[1..] else s
  }

  function Field(f: Fields, line: string): Fields {
    var colon := IndexOf(line, ':', 0);
    if colon.None? || colon.value == 0 then f
    else
      var name, value := line[..colon.value], DropOneSpace(line[colon.value + 1..]);
      if name == "event" then f.(event := Strip(value))
      else if name == "id" then f.(id := Some(Strip(value)))
      else if name == "data" then f.(data := f.data + [value])
      else f
  }

  function FieldsOf(f: Fields, lines: seq<string>): Fields
    decreases |lines|
  {
    if lines == [] then f else FieldsOf(Field(f, lines[0]), lines[1..])
  }

  datatype Event = Event(event: string, id: Option<string>, data: string)

  /** A frame's event; none when it has no data, or data that does not parse. */
  function EventOf(frame: string, readable: string -> bool): Option<Event> {
    var f := FieldsOf(NO_FIELDS, Lines(frame));
    if f.data == [] || !readable(Join(f.data)) then None
    else Some(Event(f.event, f.id, Join(f.data)))
  }

  /** A comment, a line that names nothing, and any field but these three change nothing. */
  lemma {:induction false} OtherLinesIgnored(f: Fields, line: string)
    requires forall k :: 0 <= k < |line| && line[k] == ':' && ':' !in line[..k] ==>
               line[..k] !in {"event", "id", "data"}
    ensures Field(f, line) == f
  {
    hide Strip, DropOneSpace;
  }

  method ParseFrame(frame: string, readable: string -> bool) returns (parsed: Option<Event>)
    ensures parsed == EventOf(frame, readable)
  {
    var f := NO_FIELDS;
    var lines := Lines(frame);
    assert lines[0..] == lines;
    for i := 0 to |lines|
      invariant FieldsOf(NO_FIELDS, lines) == FieldsOf(f, lines[i..])
    {
      assert lines[i..][1..] == lines[i + 1..];
      var raw := lines[i];
      assert lines[i..][0] == raw;
      var colon := IndexOf(raw, ':', 0);
      if colon.None? || colon.value == 0 {
        continue;
      }
      var field, value := raw[..colon.value], DropOneSpace(raw[colon.value + 1..]);
      if field == "event" {
        f := f.(event := Strip(value));
      } else if field == "id" {
        f := f.(id := Some(Strip(value)));
      } else if field == "data" {
        f := f.(data := f.data + [value]);
      }
    }
    if f.data == [] || !readable(Join(f.data)) {
      return None;
    }
    return Some(Event(f.event, f.id, Join(f.data)));
  }

  function EventsOf(frames: seq<string>, readable: string -> bool): seq<Event> {
    if frames == [] then []
    else
      var rest := EventsOf(frames[1..], readable);
      match EventOf(frames[0], readable)
      case None => rest
      case Some(e) => [e] + rest
  }

  // ---- the read loop --------------------------------------------------------

  /** What the page is told. */
  datatype Callback = OnStep(id: Option<string>, data: string) | OnDone(data: string) | OnError(data: string) | OnLost

  function CallbackOf(e: Event): seq<Callback> {
    if e.event == "step" then [OnStep(e.id, e.data)]
    else if e.event == "done" then [OnDone(e.data)]
    else if e.event == "error" || e.event == "timeout" then [OnError(e.data)]
    else []
  }

  function CallbacksOf(events: seq<Event>): seq<Callback> {
    if events == [] then [] else CallbackOf(events[0]) + CallbacksOf(events[1..])
  }

  predicate Terminal(c: Callback) {
    c.OnDone? || c.OnError?
  }

  predicate Finished(cs: seq<Callback>) {
    exists i :: 0 <= i < |cs| && Terminal(cs[i])
  }

  function Concat(chunks: seq<string>): string {
    if chunks == [] then "" else Concat(chunks[..|chunks| - 1]) + chunks[|chunks| - 1]
  }

  /** The buffer loop delivers what the uncut text would, whatever the chunks; a
      stream that ends without a terminal event is reported as lost. */
  method StreamRun(chunks: seq<string>, readable: string -> bool) returns (told: seq<Callback>)
    ensures var heard := CallbacksOf(EventsOf(SplitOf(Concat(chunks)).frames, readable));
            told == if Finished(heard) then heard else heard + [OnLost]
  {
    hide SplitOf, EventOf;
    var buffer, finished := "", false;
    ghost var frames: seq<string> := [];
    told := [];
    SplitClear("");
    for i := 0 to |chunks|
      invariant SplitOf(Concat(chunks[..i])) == Split(frames, buffer)
      invariant told == CallbacksOf(EventsOf(frames, readable)) && finished == Finished(told)
    {
      assert chunks[..i + 1][..i] == chunks[..i];
      SplitAppend(Concat(chunks[..i]), chunks[i]);
      buffer := buffer + chunks[i];
      var arrived, rest := SplitFrames(buffer);
      buffer := rest;
      told, finished := Deliver(frames, arrived, told, finished, readable);
      frames := frames + arrived;
    }
    assert chunks[..|chunks|] == chunks;
    if !finished {
      told := told + [OnLost];
    }
  }

  /** The body of the read loop for the frames one chunk completed. */
  method Deliver(ghost before: seq<string>, arrived: seq<string>, toldBefore: seq<Callback>, finishedBefore: bool,
                 readable: string -> bool) returns (told: seq<Callback>, finished: bool)
    requires toldBefore == CallbacksOf(EventsOf(before, readable)) && finishedBefore == Finished(toldBefore)
    ensures told == CallbacksOf(EventsOf(before + arrived, readable)) && finished == Finished(told)
  {
    hide EventOf, Finished, EventsOf, CallbacksOf, Terminal;
    told, finished := toldBefore, finishedBefore;
    assert before + arrived[..0] == before;
    for j := 0 to |arrived|
      invariant told == CallbacksOf(EventsOf(before + arrived[..j], readable))
      invariant finished == Finished(told)
    {
      ghost var frames := before + arrived[..j];
      OneMoreFrame(frames, arrived[j], readable);
      assert before + arrived[..j + 1] == frames + [arrived[j]];
      var parsed := ParseFrame(arrived[j], readable);
      if parsed.None? {
        continue;
      }
      var e := parsed.value;
      if e.event == "step" {
        FinishedSnoc(told, OnStep(e.id, e.data));
        told := told + [OnStep(e.id, e.data)];
      } else if e.event == "done" {
        FinishedSnoc(told, OnDone(e.data));
        finished, told := true, told + [OnDone(e.data)];
      } else if e.event == "error" || e.event == "timeout" {
        FinishedSnoc(told, OnError(e.data));
        finished, told := true, told + [OnError(e.data)];
      }
    }
    assert arrived[..|arrived|] == arrived;
  }

  lemma {:induction false} OneMoreFrame(frames: seq<string>, frame: string, readable: string -> bool)
    ensures CallbacksOf(EventsOf(frames + [frame], readable)) == CallbacksOf(EventsOf(frames, readable)) +
              (match EventOf(frame, readable) case None => [] case Some(e) => CallbackOf(e))
  {
    hide EventOf, EventsOf, CallbacksOf, CallbackOf;
    EventsSnoc(frames, frame, readable);
    var events := EventsOf(frames, readable);
    if EventOf(frame, readable).Some? {
      CallbacksSnoc(events, EventOf(frame, readable).value);
    } else {
      assert events + [] == events;
      assert CallbacksOf(events) + [] == CallbacksOf(events);
    }
  }

  lemma {:induction false} FinishedSnoc(cs: seq<Callback>, c: Callback)
    ensures Finished(cs + [c]) <==> Finished(cs) || c.OnDone? || c.OnError?
  {
    forall i | 0 <= i < |cs| ensures (cs + [c])[i] == cs[i] {}
    if Terminal(c) { assert (cs + [c])[|cs|] == c; }
  }

  lemma {:induction false} EventsSnoc(frames: seq<string>, frame: string, readable: string -> bool)
    ensures EventsOf(frames + [frame], readable) == EventsOf(frames, readable) +
              (match EventOf(frame, readable) case None => [] case Some(e) => [e])
  {
    hide EventOf;
    if frames != [] {
      EventsSnoc(frames[1..], frame, readable);
      assert (frames + [frame])[1..] == frames[1..] + [frame];
    }
  }

  lemma {:induction false} CallbacksSnoc(events: seq<Event>, e: Event)
    ensures CallbacksOf(events + [e]) == CallbacksOf(events) + CallbackOf(e)
  {
    hide CallbackOf;
    if events != [] {
      CallbacksSnoc(events[1..], e);
      assert (events + [e])[1..] == events[1..] + [e];
    }
  }

  // ---- what the page is told ------------------------------------------------

  /** The page is told a step for a "step" event, the end for "done", an error for "error" and
      "timeout", and nothing for any other. */
  lemma {:induction false} EventTells(e: Event)
    ensures e.event == "step" ==> CallbackOf(e) == [OnStep(e.id, e.data)]
    ensures e.event == "done" ==> CallbackOf(e) == [OnDone(e.data)]
    ensures e.event == "error" || e.event == "timeout" ==> CallbackOf(e) == [OnError(e.data)]
    ensures e.event !in {"step", "done", "error", "timeout"} ==> CallbackOf(e) == []
  {
  }

  lemma {:induction false} CallbacksConcat(a: seq<Event>, b: seq<Event>)
    ensures CallbacksOf(a + b) == CallbacksOf(a) + CallbacksOf(b)
    decreases |a|
  {
    hide CallbackOf;
    if a == [] {
      assert a + b == b;
    } else {
      CallbacksConcat(a[1..], b);
      assert (a + b)[1..] == a[1..] + b;
    }
  }

  ghost predicate ToldDone(cs: seq<Callback>) {
    exists c :: c in cs && c.OnDone?
  }

  ghost predicate ToldError(cs: seq<Callback>) {
    exists c :: c in cs && c.OnError?
  }

  lemma {:induction false} ToldConcat(a: seq<Callback>, b: seq<Callback>)
    ensures ToldDone(a + b) <==> ToldDone(a) || ToldDone(b)
    ensures ToldError(a + b) <==> ToldError(a) || ToldError(b)
    ensures OnLost in a + b <==> OnLost in a || OnLost in b
  {
    assert forall c :: c in a + b <==> c in a || c in b;
  }

  lemma {:induction false} FinishedIff(cs: seq<Callback>)
    ensures Finished(cs) <==> ToldDone(cs) || ToldError(cs)
  {
    if c :| c in cs && Terminal(c) {
      var i :| 0 <= i < |cs| && cs[i] == c;
      assert Terminal(cs[i]);
    }
  }

  lemma {:induction false} NeverLost(events: seq<Event>)
    ensures OnLost !in CallbacksOf(events)
  {
    if events != [] { NeverLost(events[1..]); }
  }
}
