/** An encoder for event streams (sections 9.2.5 and 9.2.6 of the WHATWG HTML
    Living Standard), and the proof that the client reads back what it wrote. */
module Wire {
  import opened Text
  import opened EventStream

  datatype Eol = CRLF | LF | CR

  function EolText(e: Eol): string {
    match e
    case CRLF => "\r\n"
    case LF => "\n"
    case CR => "\r"
  }

  /** One thing to send: a keep-alive comment, or an event. */
  datatype Item = Comment(text: string) | Message(id: Option<string>, event: Option<string>, data: string)

  predicate SingleLine(s: string) {
    BreakFree(s) && Strip(s) == s
  }

  predicate WellFormed(item: Item) {
    match item
    case Comment(text) => BreakFree(text)
    case Message(id, event, _) => (id.Some? ==> SingleLine(id.value)) && (event.Some? ==> SingleLine(event.value))
  }

  function DataLines(lines: seq<string>): seq<string> {
    seq(|lines|, i requires 0 <= i < |lines| => "data: " + lines[i])
  }

  function ItemLines(item: Item): (lines: seq<string>)
  {
    match item
    case Comment(text) => [":" + text]
    case Message(id, event, data) =>
      (if id.Some? then ["id: " + id.value] else [])
      + (if event.Some? then ["event: " + event.value] else [])
      + DataLines(Lines(data))
  }

  /** An item with the terminators its lines, and the blank line after it, get. */
  datatype Framed = Framed(item: Item, inner: seq<Eol>, last: Eol, blank: Eol)

  predicate Ready(f: Framed) {
    WellFormed(f.item) && |f.inner| + 1 == |ItemLines(f.item)|
  }

  /** Terminator pairs whose blank line the client recognises. */
  predicate Recognised(last: Eol, blank: Eol) {
    last == blank || (last == CRLF && blank == LF) || (last == CR && blank == CRLF)
  }

  function Body(lines: seq<string>, inner: seq<Eol>): string
    requires |lines| == |inner| + 1
  {
    if inner == [] then lines[0] else lines[0] + EolText(inner[0]) + Body(lines[1..], inner[1..])
  }

  function Encode(f: Framed): string
    requires Ready(f)
  {
    Body(ItemLines(f.item), f.inner) + EolText(f.last) + EolText(f.blank)
  }

  function Stream(fs: seq<Framed>): string
    requires forall i :: 0 <= i < |fs| ==> Ready(fs[i])
  {
    if fs == [] then "" else Encode(fs[0]) + Stream(fs[1..])
  }

  /** What the receiver should hear of one item. Line breaks inside the data arrive
      as LF. */
  function Heard(item: Item, readable: string -> bool): seq<Event> {
    match item
    case Comment(_) => []
    case Message(id, event, data) =>
      var text := Join(Lines(data));
      if readable(text) then [Event(if event.Some? then event.value else "message", id, text)] else []
  }

  function AllHeard(fs: seq<Framed>, readable: string -> bool): seq<Event> {
    if fs == [] then [] else Heard(fs[0].item, readable) + AllHeard(fs[1..], readable)
  }

  // ---- where frames end -----------------------------------------------------

  predicate Plain(l: string) {
    l != "" && BreakFree(l)
  }

  /** Line breaks only between nonempty lines. */
  predicate Tight(s: string) {
    && s != "" && !IsBreak(s[|s| - 1])
    && forall k :: 0 <= k < |s| - 1 && IsBreak(s[k]) ==>
         !IsBreak(s[k + 1]) || (s[k] == '\r' && s[k + 1] == '\n' && k + 2 < |s| && !IsBreak(s[k + 2]))
  }

  lemma {:induction false} TightJoin(l: string, e: Eol, rest: string)
    requires Plain(l) && Tight(rest) && !IsBreak(rest[0])
    ensures Tight(l + EolText(e) + rest)
  {
    var s, n := l + EolText(e) + rest, |l| + |EolText(e)|;
    forall k | 0 <= k < |l| ensures !IsBreak(s[k]) { assert s[k] == l[k]; }
    forall k | 0 <= k < |s| - 1 && IsBreak(s[k])
      ensures !IsBreak(s[k + 1]) || (s[k] == '\r' && s[k + 1] == '\n' && k + 2 < |s| && !IsBreak(s[k + 2]))
    {
      if k >= n {
        assert s[k] == rest[k - n] && s[k + 1] == rest[k - n + 1];
        if k + 2 < |s| { assert s[k + 2] == rest[k - n + 2]; }
      } else if k >= |l| {
        assert s[n] == rest[0];
      }
    }
  }

  lemma {:induction false} TightBody(lines: seq<string>, inner: seq<Eol>)
    requires |lines| == |inner| + 1 && forall i :: 0 <= i < |lines| ==> Plain(lines[i])
    ensures Tight(Body(lines, inner)) && !IsBreak(Body(lines, inner)[0])
    decreases |inner|
  {
    if inner != [] {
      TightBody(lines[1..], inner[1..]);
      TightJoin(lines[0], inner[0], Body(lines[1..], inner[1..]));
    }
  }

  /** What a recognised pair leaves on the frame before it and the frame after it. */
  function Before(last: Eol, blank: Eol): (r: string)
  {
    if last == CRLF && blank == LF then "\r" else ""
  }

  function After(last: Eol, blank: Eol): (r: string)
    ensures r == "" || r == "\n"
  {
    if last == CR && blank == CRLF then "\n" else ""
  }

  lemma {:induction false} TightClear(b: string, x: string)
    requires Tight(b)
    ensures Clear(b + x, |b|)
  {
    var s := b + x;
    forall k | 0 <= k < |b| ensures Width(s, k) == 0 {
      assert s[k] == b[k];
      if k + 1 < |b| { assert s[k + 1] == b[k + 1]; }
      if k + 2 < |b| { assert s[k + 2] == b[k + 2]; }
    }
  }

  lemma {:induction false} WidthPastBody(b: string, x: string, i: nat)
    ensures Width(b + x, |b| + i) == Width(x, i)
  {
  }

  lemma {:induction false} EndOfFrame(last: Eol, blank: Eol, tail: string)
    requires tail == "" || !IsBreak(tail[0])
    ensures var x := EolText(last) + EolText(blank) + tail;
            if Recognised(last, blank) then
              var k := |Before(last, blank)|;
              && Clear(x, k) && Width(x, k) > 0
              && x[..k] == Before(last, blank)
              && x[k + Width(x, k)..] == After(last, blank) + tail
            else Clear(x, |x| - |tail|)
  {
    hide Clear, Width;
    if Recognised(last, blank) {
      RecognisedEnd(last, blank, tail);
    } else {
      OtherEnd(last, blank, tail);
    }
  }

  lemma {:induction false} RecognisedEnd(last: Eol, blank: Eol, tail: string)
    requires (tail == "" || !IsBreak(tail[0])) && Recognised(last, blank)
    ensures var x, k := EolText(last) + EolText(blank) + tail, |Before(last, blank)|;
            && Clear(x, k) && Width(x, k) > 0
            && x[..k] == Before(last, blank)
            && x[k + Width(x, k)..] == After(last, blank) + tail
  {
  }

  lemma {:induction false} OtherEnd(last: Eol, blank: Eol, tail: string)
    requires (tail == "" || !IsBreak(tail[0])) && !Recognised(last, blank)
    ensures var x := EolText(last) + EolText(blank) + tail; Clear(x, |x| - |tail|)
  {
  }

  lemma {:induction false} FrameBoundary(b: string, last: Eol, blank: Eol, tail: string)
    requires Tight(b) && (tail == "" || !IsBreak(tail[0])) && Recognised(last, blank)
    ensures var rest := SplitOf(After(last, blank) + tail);
            SplitOf(b + (EolText(last) + EolText(blank) + tail))
            == Split([b + Before(last, blank)] + rest.frames, rest.rest)
  {
    hide Width, SplitOf, EolText, Recognised, Before, After, Tight;
    var x := EolText(last) + EolText(blank) + tail;
    var s, n := b + x, |Before(last, blank)|;
    TightClear(b, x);
    EndOfFrame(last, blank, tail);
    forall k | |b| <= k <= |b| + n ensures Width(s, k) == Width(x, k - |b|) { WidthPastBody(b, x, k - |b|); }
    var w := Width(x, n);
    SplitAt(s, |b| + n);
    assert s[..|b| + n] == b + x[..n];
    assert s[|b| + n + w..] == x[n + w..];
  }

  function FramesOf(pre: string, fs: seq<Framed>): seq<string>
    requires forall i :: 0 <= i < |fs| ==> Ready(fs[i])
    decreases |fs|
  {
    if fs == [] then []
    else
      var f := fs[0];
      assert Ready(f);
      [pre + Body(ItemLines(f.item), f.inner) + Before(f.last, f.blank)]
      + FramesOf(After(f.last, f.blank), fs[1..])
  }

  lemma {:induction false} ItemLinesPlain(item: Item)
    requires WellFormed(item)
    ensures forall i :: 0 <= i < |ItemLines(item)| ==> Plain(ItemLines(item)[i])
  {
    hide Lines, Strip;
    if item.Message? {
      var lines := Lines(item.data);
      forall i | 0 <= i < |lines| ensures Plain(DataLines(lines)[i]) {
        PlainPrefixed("data: ", lines[i]);
      }
      if item.id.Some? { PlainPrefixed("id: ", item.id.value); }
      if item.event.Some? { PlainPrefixed("event: ", item.event.value); }
    } else {
      PlainPrefixed(":", item.text);
    }
  }

  lemma {:induction false} PlainPrefixed(a: string, b: string)
    requires Plain(a) && BreakFree(b)
    ensures Plain(a + b)
  {
  }

  lemma {:induction false} BodyTight(f: Framed, pre: string)
    requires Ready(f) && (pre == "" || pre == "\n")
    ensures Tight(pre + Body(ItemLines(f.item), f.inner))
    ensures !IsBreak(Encode(f)[0])
  {
    hide ItemLines, WellFormed;
    ItemLinesPlain(f.item);
    TightBody(ItemLines(f.item), f.inner);
    var b := Body(ItemLines(f.item), f.inner);
    if pre == "" { assert pre + b == b; } else { TightAfterBreak(b); }
    assert Encode(f)[0] == b[0];
  }

  lemma {:induction false} TightAfterBreak(b: string)
    requires Tight(b) && !IsBreak(b[0])
    ensures Tight("\n" + b)
  {
    var s := "\n" + b;
    forall k | 0 <= k < |s| - 1 && IsBreak(s[k])
      ensures !IsBreak(s[k + 1]) || (s[k] == '\r' && s[k + 1] == '\n' && k + 2 < |s| && !IsBreak(s[k + 2]))
    {
      if k > 0 {
        assert s[k] == b[k - 1] && s[k + 1] == b[k];
        if k + 2 < |s| { assert s[k + 2] == b[k + 1]; }
      }
    }
  }

  lemma {:induction false} StreamStart(fs: seq<Framed>)
    requires forall i :: 0 <= i < |fs| ==> Ready(fs[i])
    ensures Stream(fs) == "" || !IsBreak(Stream(fs)[0])
  {
    if fs != [] { BodyTight(fs[0], ""); }
  }

  /** The stream splits into one frame per item. */
  lemma {:induction false} StreamFront(pre: string, fs: seq<Framed>)
    requires fs != [] && forall i :: 0 <= i < |fs| ==> Ready(fs[i])
    ensures var f := fs[0];
            pre + Stream(fs) ==
              (pre + Body(ItemLines(f.item), f.inner)) + (EolText(f.last) + EolText(f.blank) + Stream(fs[1..]))
  {
    hide Body, ItemLines, EolText, Ready;
    assert Ready(fs[0]);
  }

  lemma {:induction false} StreamEmpty()
    ensures Stream([]) == ""
  {
  }

  lemma {:induction false} StreamSplits(pre: string, fs: seq<Framed>)
    requires forall i :: 0 <= i < |fs| ==> Ready(fs[i]) && Recognised(fs[i].last, fs[i].blank)
    requires pre == "" || pre == "\n"
    ensures SplitOf(pre + Stream(fs)).frames == FramesOf(pre, fs)
    decreases |fs|
  {
    hide SplitOf, Recognised, Body, ItemLines, Tight, Before, After, EolText, Stream;
    if fs == [] {
      assert Stream([]) == "" by { StreamEmpty(); }
      SplitClear(pre);
      assert pre + "" == pre;
    } else {
      var f, tail := fs[0], Stream(fs[1..]);
      StreamStart(fs[1..]);
      BodyTight(f, pre);
      var b := pre + Body(ItemLines(f.item), f.inner);
      FrameBoundary(b, f.last, f.blank, tail);
      StreamFront(pre, fs);
      StreamSplits(After(f.last, f.blank), fs[1..]);
    }
  }

  /** One item by itself is delivered as a frame exactly when its terminator pair is
      one the client recognises. */
  lemma {:induction false} FrameIffRecognised(f: Framed)
    requires Ready(f)
    ensures |SplitOf(Encode(f)).frames| == (if Recognised(f.last, f.blank) then 1 else 0)
  {
    hide SplitOf, Body, ItemLines, Tight, Width;
    var b := Body(ItemLines(f.item), f.inner);
    BodyTight(f, "");
    assert "" + b == b;
    var x := EolText(f.last) + EolText(f.blank) + "";
    assert Encode(f) == b + x;
    EndOfFrame(f.last, f.blank, "");
    if Recognised(f.last, f.blank) {
      FrameBoundary(b, f.last, f.blank, "");
      assert After(f.last, f.blank) + "" == After(f.last, f.blank);
      ShortClear(After(f.last, f.blank));
    } else {
      TightClear(b, x);
      forall k | |b| <= k < |b + x| ensures Width(b + x, k) == 0 { WidthPastBody(b, x, k - |b|); }
      SplitClear(b + x);
    }
  }

  lemma {:induction false} ShortClear(s: string)
    requires |s| <= 1
    ensures SplitOf(s) == Split([], s)
  {
    SplitClear(s);
  }

  // ---- what a frame says ----------------------------------------------------

  lemma {:induction false} LinesPlain(l: string)
    requires BreakFree(l)
    ensures Lines(l) == [l]
  {
  }

  lemma {:induction false} LinesStep(l: string, e: Eol, rest: string)
    requires BreakFree(l) && (e == CR ==> rest == "" || rest[0] != '\n')
    ensures Lines(l + EolText(e) + rest) == [l] + Lines(rest)
  {
    var s := l + EolText(e) + rest;
    assert s[|l|] == EolText(e)[0];
    forall k | 0 <= k < |l| ensures s[k] == l[k] {}
    assert FirstBreak(s, 0) == Some(|l|);
    assert s[..|l|] == l;
    assert s[|l| + BreakWidth(s, |l|)..] == rest;
  }

  lemma {:induction false} BodyStep(lines: seq<string>, inner: seq<Eol>)
    requires |lines| == |inner| + 1
    ensures Body(lines, inner) ==
              if inner == [] then lines[0] else lines[0] + EolText(inner[0]) + Body(lines[1..], inner[1..])
  {
  }

  lemma {:induction false} LinesBody(lines: seq<string>, inner: seq<Eol>, post: string)
    requires |lines| == |inner| + 1 && forall i :: 0 <= i < |lines| ==> Plain(lines[i])
    requires post == "" || post == "\r"
    ensures Lines(Body(lines, inner) + post) == lines + (if post == "" then [] else [""])
    decreases |inner|
  {
    hide Lines, Body;
    BodyStep(lines, inner);
    if inner == [] {
      if post == "" {
        assert lines[0] + post == lines[0];
        LinesPlain(lines[0]);
      } else {
        LinesStep(lines[0], CR, "");
        LinesPlain("");
        assert lines[0] + EolText(CR) + "" == lines[0] + post;
      }
    } else {
      var rest := Body(lines[1..], inner[1..]) + post;
      LinesBody(lines[1..], inner[1..], post);
      TightBody(lines[1..], inner[1..]);
      LinesStep(lines[0], inner[0], rest);
      assert Body(lines, inner) + post == lines[0] + EolText(inner[0]) + rest;
      assert lines == [lines[0]] + lines[1..];
    }
  }

  lemma {:induction false} FieldsConcat(f: Fields, a: seq<string>, b: seq<string>)
    ensures FieldsOf(f, a + b) == FieldsOf(FieldsOf(f, a), b)
    decreases |a|
  {
    hide Field;
    if a == [] {
      assert a + b == b;
    } else {
      FieldsConcat(Field(f, a[0]), a[1..], b);
      assert (a + b)[1..] == a[1..] + b && (a + b)[0] == a[0];
    }
  }

  lemma {:induction false} FieldsOne(f: Fields, l: string)
    ensures FieldsOf(f, [l]) == Field(f, l)
    ensures Field(f, "") == f
  {
    assert [l][1..] == [];
  }

  lemma {:induction false} FieldNamed(f: Fields, name: string, value: string)
    requires forall i :: 0 <= i < |name| ==> name[i] != ':'
    requires name != ""
    ensures var line := name + ": " + value;
            Field(f, line) ==
              if name == "event" then f.(event := Strip(value))
              else if name == "id" then f.(id := Some(Strip(value)))
              else if name == "data" then f.(data := f.data + [value])
              else f
  {
    hide Strip;
    var line := name + ": " + value;
    assert forall i :: 0 <= i < |name| ==> line[i] == name[i];
    assert line[|name|] == ':';
    assert IndexOf(line, ':', 0) == Some(|name|);
    assert line[..|name|] == name && line[|name| + 1..] == " " + value;
    assert (" " + value)[1..] == value;
  }

  lemma {:induction false} DataFields(f: Fields, lines: seq<string>)
    ensures FieldsOf(f, DataLines(lines)) == f.(data := f.data + lines)
    decreases |lines|
  {
    hide Field;
    if lines == [] {
    } else {
      FieldNamed(f, "data", lines[0]);
      assert DataLines(lines)[0] == "data" + ": " + lines[0];
      assert DataLines(lines)[1..] == DataLines(lines[1..]);
      DataFields(Field(f, DataLines(lines)[0]), lines[1..]);
      assert f.data + [lines[0]] + lines[1..] == f.data + lines;
    }
  }

  lemma {:induction false} MessageFields(item: Item)
    requires item.Message? && WellFormed(item)
    ensures FieldsOf(NO_FIELDS, ItemLines(item)) ==
              Fields(if item.event.Some? then item.event.value else "message", item.id, Lines(item.data))
  {
    hide Field, FieldsOf, Lines, Strip;
    var ids := if item.id.Some? then ["id: " + item.id.value] else [];
    var events := if item.event.Some? then ["event: " + item.event.value] else [];
    FieldsConcat(NO_FIELDS, ids + events, DataLines(Lines(item.data)));
    FieldsConcat(NO_FIELDS, ids, events);
    FieldsEmpty(NO_FIELDS);
    if item.id.Some? {
      FieldsOne(NO_FIELDS, "id: " + item.id.value);
      FieldNamed(NO_FIELDS, "id", item.id.value);
      assert "id" + ": " + item.id.value == "id: " + item.id.value;
    }
    var f := FieldsOf(NO_FIELDS, ids);
    FieldsEmpty(f);
    if item.event.Some? {
      FieldsOne(f, "event: " + item.event.value);
      FieldNamed(f, "event", item.event.value);
      assert "event" + ": " + item.event.value == "event: " + item.event.value;
    }
    DataFields(FieldsOf(f, events), Lines(item.data));
    assert [] + Lines(item.data) == Lines(item.data);
  }

  lemma {:induction false} FieldsEmpty(f: Fields)
    ensures FieldsOf(f, []) == f
  {
  }

  lemma {:induction false} CommentFields(text: string)
    ensures FieldsOf(NO_FIELDS, ItemLines(Comment(text))) == NO_FIELDS
  {
    FieldsOne(NO_FIELDS, ":" + text);
    assert (":" + text)[0] == ':';
  }

  /** A frame says what its item says, whatever the terminators left around it. */
  lemma {:induction false} FrameSays(f: Framed, pre: string, post: string, readable: string -> bool)
    requires Ready(f) && (pre == "" || pre == "\n") && (post == "" || post == "\r")
    ensures var e := EventOf(pre + Body(ItemLines(f.item), f.inner) + post, readable);
            Heard(f.item, readable) == if e.Some? then [e.value] else []
  {
    hide Field, FieldsOf, Lines, ItemLines, Body, Join;
    var lines := ItemLines(f.item);
    var b := Body(lines, f.inner);
    ItemLinesPlain(f.item);
    LinesBody(lines, f.inner, post);
    var padded := lines + (if post == "" then [] else [""]);
    assert pre + b + post == pre + (b + post);
    if pre == "\n" {
      LinesStep("", LF, b + post);
      assert "" + EolText(LF) + (b + post) == pre + (b + post);
      FieldsConcat(NO_FIELDS, [""], padded);
      FieldsOne(NO_FIELDS, "");
    } else {
      assert pre + (b + post) == b + post;
    }
    assert FieldsOf(NO_FIELDS, Lines(pre + b + post)) == FieldsOf(NO_FIELDS, padded);
    FieldsConcat(NO_FIELDS, lines, if post == "" then [] else [""]);
    FieldsEmpty(FieldsOf(NO_FIELDS, lines));
    FieldsOne(FieldsOf(NO_FIELDS, lines), "");
    if f.item.Message? { MessageFields(f.item); } else { CommentFields(f.item.text); }
  }

  lemma {:induction false} FramesSay(pre: string, fs: seq<Framed>, readable: string -> bool)
    requires forall i :: 0 <= i < |fs| ==> Ready(fs[i])
    requires pre == "" || pre == "\n"
    ensures EventsOf(FramesOf(pre, fs), readable) == AllHeard(fs, readable)
    decreases |fs|
  {
    hide EventOf, Heard, Body, ItemLines;
    if fs != [] {
      var f := fs[0];
      FrameSays(f, pre, Before(f.last, f.blank), readable);
      FramesSay(After(f.last, f.blank), fs[1..], readable);
      var frames := FramesOf(pre, fs);
      assert frames[1..] == FramesOf(After(f.last, f.blank), fs[1..]);
    }
  }

  /** Any list of items, each terminated in any recognised way, cut into any chunks:
      the read loop hears exactly the messages, in order. */
  lemma {:induction false} RoundTrip(fs: seq<Framed>, chunks: seq<string>, readable: string -> bool)
    requires forall i :: 0 <= i < |fs| ==> Ready(fs[i]) && Recognised(fs[i].last, fs[i].blank)
    requires Concat(chunks) == Stream(fs)
    ensures EventsOf(SplitOf(Concat(chunks)).frames, readable) == AllHeard(fs, readable)
  {
    hide *;
    StreamSplits("", fs);
    FramesSay("", fs, readable);
    assert "" + Stream(fs) == Stream(fs);
  }

  /** A connection that dies early has delivered a prefix of the events. */
  lemma {:induction false} EarlyEndIsPrefix(received: string, lost: string, readable: string -> bool)
    ensures EventsOf(SplitOf(received).frames, readable) <= EventsOf(SplitOf(received + lost).frames, readable)
  {
    hide *;
    SplitAppend(received, lost);
    EventsConcat(SplitOf(received).frames, SplitOf(SplitOf(received).rest + lost).frames, readable);
  }

  lemma {:induction false} EventsConcat(a: seq<string>, b: seq<string>, readable: string -> bool)
    ensures EventsOf(a + b, readable) == EventsOf(a, readable) + EventsOf(b, readable)
    decreases |a|
  {
    hide EventOf;
    if a == [] {
      assert a + b == b;
    } else {
      EventsConcat(a[1..], b, readable);
      assert (a + b)[1..] == a[1..] + b;
    }
  }

  // ---- data with line breaks ------------------------------------------------

  /** Data survives the trip unchanged exactly when it holds no carriage return. */
  lemma {:induction false} DataSurvivesIff(data: string)
    ensures Join(Lines(data)) == data <==> '\r' !in data
  {
    JoinHasNoReturn(Lines(data));
    if '\r' !in data { JoinLines(data); }
  }

  lemma {:induction false} JoinHasNoReturn(lines: seq<string>)
    requires forall i :: 0 <= i < |lines| ==> BreakFree(lines[i])
    ensures '\r' !in Join(lines)
    decreases |lines|
  {
    if |lines| > 1 { JoinHasNoReturn(lines[1..]); }
  }

  lemma {:induction false} JoinLines(s: string)
    requires '\r' !in s
    ensures Join(Lines(s)) == s
    decreases |s|
  {
    var b := FirstBreak(s, 0);
    if b.Some? {
      var k := b.value;
      assert s[k] == '\n' && BreakWidth(s, k) == 1;
      JoinLines(s[k + 1..]);
      var lines := [s[..k]] + Lines(s[k + 1..]);
      assert lines[1..] == Lines(s[k + 1..]);
      assert s == s[..k] + "\n" + s[k + 1..];
    }
  }

  // ---- from the sender to the page ------------------------------------------

  /** A message of one of these names whose data can be read. */
  predicate Sends(f: Framed, names: set<string>, readable: string -> bool) {
    f.item.Message? && f.item.event.Some? && f.item.event.value in names && readable(Join(Lines(f.item.data)))
  }

  predicate AnySends(fs: seq<Framed>, names: set<string>, readable: string -> bool) {
    exists i :: 0 <= i < |fs| && Sends(fs[i], names, readable)
  }

  lemma {:induction false} AnySendsFirst(fs: seq<Framed>, names: set<string>, readable: string -> bool)
    requires fs != []
    ensures AnySends(fs, names, readable) <==> Sends(fs[0], names, readable) || AnySends(fs[1..], names, readable)
  {
    hide Sends;
    if i :| 0 <= i < |fs| && Sends(fs[i], names, readable) {
      if i > 0 { assert fs[1..][i - 1] == fs[i]; }
    }
    if j :| 0 <= j < |fs[1..]| && Sends(fs[1..][j], names, readable) {
      assert fs[j + 1] == fs[1..][j];
    }
  }

  lemma {:induction false} OneTold(f: Framed, readable: string -> bool)
    ensures var cs := CallbacksOf(Heard(f.item, readable));
            && (ToldDone(cs) <==> Sends(f, {"done"}, readable))
            && (ToldError(cs) <==> Sends(f, {"error", "timeout"}, readable))
  {
    hide Lines, Join, CallbackOf;
    var heard := Heard(f.item, readable);
    if heard != [] {
      EventTells(heard[0]);
      assert heard[1..] == [];
      assert CallbacksOf(heard) == CallbackOf(heard[0]) + CallbacksOf([]);
      OneEvent(CallbackOf(heard[0]), heard[0].event);
    }
  }

  lemma {:induction false} OneEvent(cs: seq<Callback>, name: string)
    requires name == "step" ==> |cs| == 1 && cs[0].OnStep?
    requires name == "done" ==> |cs| == 1 && cs[0].OnDone?
    requires name == "error" || name == "timeout" ==> |cs| == 1 && cs[0].OnError?
    requires name !in {"step", "done", "error", "timeout"} ==> cs == []
    ensures ToldDone(cs) <==> name == "done"
    ensures ToldError(cs) <==> name == "error" || name == "timeout"
  {
    if |cs| == 1 { assert cs[0] in cs; }
  }

  lemma {:induction false} HeardTold(fs: seq<Framed>, readable: string -> bool)
    ensures var cs := CallbacksOf(AllHeard(fs, readable));
            && (ToldDone(cs) <==> AnySends(fs, {"done"}, readable))
            && (ToldError(cs) <==> AnySends(fs, {"error", "timeout"}, readable))
  {
    if fs != [] {
      hide Heard, CallbacksOf, Sends, AnySends, ToldDone, ToldError;
      var first, rest := Heard(fs[0].item, readable), AllHeard(fs[1..], readable);
      HeardTold(fs[1..], readable);
      OneTold(fs[0], readable);
      CallbacksConcat(first, rest);
      ToldConcat(CallbacksOf(first), CallbacksOf(rest));
      AnySendsFirst(fs, {"done"}, readable);
      AnySendsFirst(fs, {"error", "timeout"}, readable);
    }
  }

  /** End to end, over any items and any cuts: the page is told the run is done exactly when
      a readable "done" was sent, an error exactly when a readable "error" or "timeout" was,
      and that the stream was lost exactly when none of them was. */
  method Hear(fs: seq<Framed>, chunks: seq<string>, readable: string -> bool) returns (told: seq<Callback>)
    requires forall i :: 0 <= i < |fs| ==> Ready(fs[i]) && Recognised(fs[i].last, fs[i].blank)
    requires Concat(chunks) == Stream(fs)
    ensures ToldDone(told) <==> AnySends(fs, {"done"}, readable)
    ensures ToldError(told) <==> AnySends(fs, {"error", "timeout"}, readable)
    ensures OnLost in told <==> !AnySends(fs, {"done", "error", "timeout"}, readable)
  {
    hide *;
    told := StreamRun(chunks, readable);
    ghost var heard := CallbacksOf(AllHeard(fs, readable));
    RoundTrip(fs, chunks, readable);
    HeardTold(fs, readable);
    FinishedIff(heard);
    NeverLost(AllHeard(fs, readable));
    LostTells(heard);
    EndsTogether(fs, readable);
  }

  lemma {:induction false} LostTells(cs: seq<Callback>)
    ensures ToldDone(cs + [OnLost]) <==> ToldDone(cs)
    ensures ToldError(cs + [OnLost]) <==> ToldError(cs)
    ensures OnLost in cs + [OnLost]
  {
    ToldConcat(cs, [OnLost]);
  }

  lemma {:induction false} EndsTogether(fs: seq<Framed>, readable: string -> bool)
    ensures AnySends(fs, {"done", "error", "timeout"}, readable) <==>
              AnySends(fs, {"done"}, readable) || AnySends(fs, {"error", "timeout"}, readable)
  {
    assert forall i :: 0 <= i < |fs| ==>
             (Sends(fs[i], {"done", "error", "timeout"}, readable) <==>
                Sends(fs[i], {"done"}, readable) || Sends(fs[i], {"error", "timeout"}, readable));
    hide Sends;
  }

  // ---- an ordinary run ------------------------------------------------------

  /** A readable message of this name. */
  predicate Says(f: Framed, name: string, readable: string -> bool) {
    f.item.Message? && f.item.event == Some(name) && readable(Join(Lines(f.item.data)))
  }

  lemma {:induction false} StepsTold(fs: seq<Framed>, readable: string -> bool)
    requires forall i :: 0 <= i < |fs| ==> Says(fs[i], "step", readable)
    ensures var cs := CallbacksOf(AllHeard(fs, readable));
            && |cs| == |fs|
            && forall i :: 0 <= i < |fs| ==>
                 fs[i].item.Message? && cs[i] == OnStep(fs[i].item.id, Join(Lines(fs[i].item.data)))
  {
    if fs != [] {
      hide Lines, Join, CallbackOf;
      var heard := Heard(fs[0].item, readable);
      assert Says(fs[0], "step", readable);
      StepsTold(fs[1..], readable);
      EventTells(heard[0]);
      CallbacksConcat(heard, AllHeard(fs[1..], readable));
      OneCallback(heard[0]);
      assert heard == [heard[0]];
    }
  }

  lemma {:induction false} OneCallback(e: Event)
    ensures CallbacksOf([e]) == CallbackOf(e)
  {
    hide CallbackOf;
    assert [e][1..] == [] && CallbackOf(e) + [] == CallbackOf(e);
  }

  lemma {:induction false} HeardSnoc(fs: seq<Framed>, f: Framed, readable: string -> bool)
    ensures AllHeard(fs + [f], readable) == AllHeard(fs, readable) + Heard(f.item, readable)
    decreases |fs|
  {
    hide Heard;
    if fs == [] {
      assert [] + [f] == [f] && [f][1..] == [];
    } else {
      HeardSnoc(fs[1..], f, readable);
      assert (fs + [f])[1..] == fs[1..] + [f];
    }
  }

  /** Steps and then the end: the page is told each step with its identifier and data, in
      order, then the final data, and nothing else, wherever the stream is cut. */
  method HearRun(steps: seq<Framed>, last: Framed, chunks: seq<string>, readable: string -> bool)
      returns (told: seq<Callback>)
    requires forall i :: 0 <= i < |steps| ==>
               Ready(steps[i]) && Recognised(steps[i].last, steps[i].blank) && Says(steps[i], "step", readable)
    requires Ready(last) && Recognised(last.last, last.blank) && Says(last, "done", readable)
    requires Concat(chunks) == Stream(steps + [last])
    ensures |told| == |steps| + 1 && told[|steps|] == OnDone(Join(Lines(last.item.data)))
    ensures forall i :: 0 <= i < |steps| ==>
                steps[i].item.Message? && told[i] == OnStep(steps[i].item.id, Join(Lines(steps[i].item.data)))
  {
    hide CallbacksOf, CallbackOf, EventsOf, SplitOf, Stream, Join, Lines, Ready, Recognised, AllHeard, Finished, Concat;
    ghost var heard := CallbacksOf(AllHeard(steps + [last], readable));
    told := StreamRun(chunks, readable);
    RoundTrip(steps + [last], chunks, readable);
    HeardSnoc(steps, last, readable);
    StepsTold(steps, readable);
    ghost var e := Heard(last.item, readable)[0];
    CallbacksConcat(AllHeard(steps, readable), Heard(last.item, readable));
    assert Heard(last.item, readable) == [e];
    OneCallback(e);
    EventTells(e);
    FinishedIff(heard);
    assert heard[|steps|].OnDone? && heard[|steps|] in heard;
  }
}
