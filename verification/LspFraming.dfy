/** The incremental `Content-Length` parser of the LSP client, and what it computes. */
module LspFraming {
  import opened JsStrings

  const PREFIX: JsString := Lit("Content-Length: ")
  const BLANK_LINE: JsString := [13, 10, 13, 10]

  /** `Content-Length: (\d+)\r\n\r\n` matches `s` at `at`, the group being `digits` long. */
  predicate IsHeader(s: JsString, at: nat, digits: nat) {
    var group := at + |PREFIX|;
    && 1 <= digits
    && group + digits + 4 <= |s|
    && (forall k :: at <= k < group ==> s[k] == PREFIX[k - at])
    && (forall k :: group <= k < group + digits ==> IsDigit(s[k]))
    && (forall k :: group + digits <= k < group + digits + 4 ==> s[k] == BLANK_LINE[k - group - digits])
  }

  /** A header, said without positions: the words, at least one digit, and an empty line. */
  lemma IsHeaderIff(s: JsString, at: nat, digits: nat)
    ensures IsHeader(s, at, digits) <==>
            exists a: JsString, d: JsString, b: JsString ::
              && s == a + Lit("Content-Length: ") + d + [13, 10, 13, 10] + b
              && |a| == at && |d| == digits && digits > 0 && AllDigits(d)
  {
    if IsHeader(s, at, digits) {
      var group := at + |PREFIX|;
      var a, d, b := s[..at], s[group..group + digits], s[group + digits + 4..];
      assert s[at..group] == PREFIX && s[group + digits..group + digits + 4] == BLANK_LINE;
      assert s == a + PREFIX + d + BLANK_LINE + b;
    }
    if a: JsString, d: JsString, b: JsString :|
         s == a + Lit("Content-Length: ") + d + [13, 10, 13, 10] + b && |a| == at && |d| == digits && digits > 0 &&
         AllDigits(d) {
      HeaderInside(a, d, b);
    }
  }

  lemma HeaderInside(a: JsString, d: JsString, b: JsString)
    requires d != [] && AllDigits(d)
    ensures IsHeader(a + Lit("Content-Length: ") + d + [13, 10, 13, 10] + b, |a|, |d|)
  {
  }

  datatype Match = NoMatch | Match(at: nat, digits: nat)

  /** How many digits follow position `i`. */
  function DigitRun(s: JsString, i: nat): (d: nat)
    requires i <= |s|
    ensures i + d <= |s| && forall k :: i <= k < i + d ==> IsDigit(s[k])
    ensures i + d < |s| ==> !IsDigit(s[i + d])
    decreases |s| - i
  {
    if i < |s| && IsDigit(s[i]) then 1 + DigitRun(s, i + 1) else 0
  }

  /** The regular expression tried at one position; the digit group is greedy. */
  function MatchAt(s: JsString, i: nat): (m: Match)
    requires i <= |s|
    ensures m.Match? ==> m.at == i && IsHeader(s, i, m.digits)
    ensures m.NoMatch? ==> forall d :: !IsHeader(s, i, d)
  {
    if i + |PREFIX| <= |s| && s[i..i + |PREFIX|] == PREFIX then
      var d := DigitRun(s, i + |PREFIX|);
      assert forall e :: IsHeader(s, i, e) ==> e == d by {
        forall e | IsHeader(s, i, e) ensures e == d { GreedyGroup(s, i, e, d); }
      }
      if IsHeader(s, i, d) then Match(i, d) else NoMatch
    else
      NoPrefixNoHeader(s, i);
      NoMatch
  }

  lemma HeaderFits(s: JsString, i: nat, d: nat)
    requires IsHeader(s, i, d)
    ensures i + |PREFIX| + d + 4 <= |s| && s[i..i + |PREFIX|] == PREFIX
  {
  }

  lemma NoPrefixNoHeader(s: JsString, i: nat)
    requires !(i + |PREFIX| <= |s| && s[i..i + |PREFIX|] == PREFIX)
    ensures forall d :: !IsHeader(s, i, d)
  {
    hide IsHeader;
    forall d ensures !IsHeader(s, i, d) {
      if IsHeader(s, i, d) {
        HeaderFits(s, i, d);
      }
    }
  }

  lemma GreedyGroup(s: JsString, i: nat, e: nat, d: nat)
    requires IsHeader(s, i, e)
    requires i + |PREFIX| + d <= |s| && forall k :: i + |PREFIX| <= k < i + |PREFIX| + d ==> IsDigit(s[k])
    requires i + |PREFIX| + d < |s| ==> !IsDigit(s[i + |PREFIX| + d])
    ensures e == d
  {
    assert !IsDigit(s[i + |PREFIX| + e]);
  }

  /** `buffer.match(...)`: the leftmost match, searching from `from`. */
  function FindFrom(s: JsString, from: nat): (m: Match)
    requires from <= |s|
    ensures m.Match? ==> from <= m.at && IsHeader(s, m.at, m.digits)
    ensures m.Match? ==> forall j, d :: from <= j < m.at ==> !IsHeader(s, j, d)
    ensures m.NoMatch? ==> forall j, d :: from <= j ==> !IsHeader(s, j, d)
    decreases |s| - from
  {
    var m := MatchAt(s, from);
    if m.Match? || from == |s| then m else FindFrom(s, from + 1)
  }

  function BodyStart(m: Match): nat
    requires m.Match?
  {
    m.at + |PREFIX| + m.digits + 4
  }

  function ContentLength(s: JsString, m: Match): nat
    requires m.Match? && IsHeader(s, m.at, m.digits)
  {
    ParseDecimal(s[m.at + |PREFIX|..m.at + |PREFIX| + m.digits])
  }

  datatype Cut = Wait | Cut(start: nat, end: nat)

  /** Where the next complete message lies in the buffer, if there is one. */
  function NextMessage(s: JsString): (c: Cut)
    ensures c.Cut? ==> 0 < c.start <= c.end <= |s|
  {
    var m := FindFrom(s, 0);
    if m.NoMatch? then Wait else
      var start := BodyStart(m);
      var end := start + ContentLength(s, m);
      if |s| < end then Wait else Cut(start, end)
  }

  datatype Parse = Parse(bodies: seq<JsString>, rest: JsString)

  /** Everything the parser takes out of a stream received so far, and what stays buffered. */
  function Extract(s: JsString): Parse
    decreases |s|
  {
    var c := NextMessage(s);
    if c.Wait? then Parse([], s) else
      var tail := Extract(s[c.end..]);
      Parse([s[c.start..c.end]] + tail.bodies, tail.rest)
  }

  // -- Chunk independence ----------------------------------------------------

  /** Header matches do not overlap: only the first code unit of one is a `C`. */
  lemma HeadersDoNotOverlap(s: JsString, i: nat, d: nat, j: nat, e: nat)
    requires IsHeader(s, i, d) && IsHeader(s, j, e) && i < j
    ensures i + |PREFIX| + d + 4 <= j
  {
    assert s[j] == PREFIX[0] == 67;
    assert forall k :: i < k < i + |PREFIX| + d + 4 ==> s[k] != 67;
  }

  lemma HeaderInExtension(s: JsString, t: JsString, i: nat, d: nat)
    requires i + |PREFIX| + d + 4 <= |s|
    ensures IsHeader(s + t, i, d) <==> IsHeader(s, i, d)
  {
    assert forall k :: 0 <= k < |s| ==> (s + t)[k] == s[k];
  }

  /** The leftmost complete header of a prefix stays the leftmost one in every extension. */
  lemma LeftmostHeaderIsStable(s: JsString, t: JsString)
    requires FindFrom(s, 0).Match?
    ensures FindFrom(s + t, 0) == FindFrom(s, 0)
  {
    hide FindFrom, IsHeader;
    var m := FindFrom(s, 0);
    HeaderFits(s, m.at, m.digits);
    HeaderInExtension(s, t, m.at, m.digits);
    var n := FindFrom(s + t, 0);
    if n.at < m.at {
      HeadersDoNotOverlap(s + t, n.at, n.digits, m.at, m.digits);
      HeaderInExtension(s, t, n.at, n.digits);
      assert false;
    }
    MatchIsUnique(s + t, m.at, m.digits, n.digits);
  }

  lemma MatchIsUnique(s: JsString, i: nat, d: nat, e: nat)
    requires IsHeader(s, i, d) && IsHeader(s, i, e)
    ensures d == e
  {
    assert !IsDigit(s[i + |PREFIX| + d]) && !IsDigit(s[i + |PREFIX| + e]);
  }

  lemma ContentLengthInExtension(s: JsString, t: JsString, m: Match)
    requires m.Match? && IsHeader(s, m.at, m.digits) && IsHeader(s + t, m.at, m.digits)
    ensures ContentLength(s + t, m) == ContentLength(s, m)
  {
    hide ParseDecimal;
    var b := m.at + |PREFIX|;
    assert (s + t)[b..b + m.digits] == s[b..b + m.digits];
  }

  /** A message that is complete in `s` is cut at the same place in every extension of `s`. */
  lemma CompleteMessageIsStable(s: JsString, t: JsString)
    requires NextMessage(s).Cut?
    ensures NextMessage(s + t) == NextMessage(s)
  {
    hide FindFrom, IsHeader, ContentLength;
    LeftmostHeaderIsStable(s, t);
    ContentLengthInExtension(s, t, FindFrom(s, 0));
  }

  /** Feeding `s` and then `t` takes out the same bodies, in the same order, and leaves the
      same buffer as feeding `s + t` at once. */
  lemma {:induction false} ChunkIndependence(s: JsString, t: JsString)
    ensures Extract(s + t).bodies == Extract(s).bodies + Extract(Extract(s).rest + t).bodies
    ensures Extract(s + t).rest == Extract(Extract(s).rest + t).rest
    decreases |s|
  {
    hide NextMessage;
    var c := NextMessage(s);
    if c.Cut? {
      CompleteMessageIsStable(s, t);
      assert (s + t)[c.start..c.end] == s[c.start..c.end];
      assert (s + t)[c.end..] == s[c.end..] + t;
      ChunkIndependence(s[c.end..], t);
    }
  }

  lemma EmptyStream()
    ensures Extract([]) == Parse([], [])
  {
  }

  function Flatten(chunks: seq<JsString>): JsString {
    if chunks == [] then [] else chunks[0] + Flatten(chunks[1..])
  }

  /** The parser run over a list of chunks, starting from an empty buffer. */
  function FeedAll(chunks: seq<JsString>): Parse {
    if chunks == [] then Parse([], []) else
      var before := FeedAll(chunks[..|chunks| - 1]);
      var now := Extract(before.rest + chunks[|chunks| - 1]);
      Parse(before.bodies + now.bodies, now.rest)
  }

  lemma {:induction false} FlattenSnoc(chunks: seq<JsString>, c: JsString)
    ensures Flatten(chunks + [c]) == Flatten(chunks) + c
  {
    if chunks == [] {
      assert (chunks + [c])[1..] == [];
    } else {
      assert (chunks + [c])[1..] == chunks[1..] + [c];
      FlattenSnoc(chunks[1..], c);
    }
  }

  /** However the stream is cut into chunks, the outcome is that of the whole stream. */
  lemma {:induction false} AnyChunking(chunks: seq<JsString>)
    ensures FeedAll(chunks) == Extract(Flatten(chunks))
  {
    hide Extract;
    if chunks == [] {
      EmptyStream();
    } else {
      var init, last := chunks[..|chunks| - 1], chunks[|chunks| - 1];
      AnyChunking(init);
      assert chunks == init + [last];
      FlattenSnoc(init, last);
      ChunkIndependence(Flatten(init), last);
    }
  }

  // -- Round trip ------------------------------------------------------------

  function Header(length: nat): JsString {
    PREFIX + PrintDecimal(length) + BLANK_LINE
  }

  /** The framing used by `request` and `notify`. */
  function Frame(body: JsString): JsString {
    Header(|body|) + body
  }

  function Frames(bodies: seq<JsString>): JsString {
    if bodies == [] then [] else Frame(bodies[0]) + Frames(bodies[1..])
  }

  /** What is written for a body of two units. */
  lemma FrameOfTwo()
    ensures Frame(Lit("{}")) == Lit("Content-Length: 2") + [13, 10, 13, 10] + Lit("{}")
  {
    assert PrintDecimal(2) == [50];
    assert Lit("Content-Length: ") + [50] == Lit("Content-Length: 2");
  }

  /** A stream that starts with a header announcing `n` units is cut right there. */
  lemma HeaderIsFound(n: nat, t: JsString)
    ensures var m := FindFrom(Header(n) + t, 0);
            && m == Match(0, |PrintDecimal(n)|)
            && BodyStart(m) == |Header(n)|
            && ContentLength(Header(n) + t, m) == n
  {
    var s, d := Header(n) + t, |PrintDecimal(n)|;
    assert s[|PREFIX|..|PREFIX| + d] == PrintDecimal(n);
    assert IsHeader(s, 0, d);
    var m := FindFrom(s, 0);
    MatchIsUnique(s, 0, d, m.digits);
    ParsePrint(n);
  }

  /** One frame in front of anything is taken out exactly, whatever its body contains. */
  lemma FrameIsExtracted(body: JsString, t: JsString)
    ensures Extract(Frame(body) + t) == Parse([body] + Extract(t).bodies, Extract(t).rest)
  {
    HeaderIsFound(|body|, body + t);
    var s := Frame(body) + t;
    assert s == Header(|body|) + (body + t);
    assert s[|Header(|body|)|..|Frame(body)|] == body;
    assert s[|Frame(body)|..] == t;
  }

  lemma {:induction false} FramesAreExtracted(bodies: seq<JsString>)
    ensures Extract(Frames(bodies)) == Parse(bodies, [])
  {
    hide Extract;
    if bodies == [] {
      EmptyStream();
    } else {
      FramesAreExtracted(bodies[1..]);
      FrameIsExtracted(bodies[0], Frames(bodies[1..]));
      assert bodies == [bodies[0]] + bodies[1..];
    }
  }

  /** Any list of bodies, framed and delivered in any chunking, comes out as that list. */
  lemma WriteReadRoundTrip(bodies: seq<JsString>, chunks: seq<JsString>)
    requires Flatten(chunks) == Frames(bodies)
    ensures FeedAll(chunks) == Parse(bodies, [])
  {
    AnyChunking(chunks);
    FramesAreExtracted(bodies);
  }

  // -- Byte counts against code-unit counts ----------------------------------

  predicate IsPair(s: JsString) {
    2 <= |s| && 0xD800 <= s[0] < 0xDC00 && 0xDC00 <= s[1] < 0xE000
  }

  /** Length in bytes of the UTF-8 encoding (a lone surrogate becomes U+FFFD, three bytes). */
  function Utf8Length(s: JsString): nat {
    if s == [] then 0
    else if s[0] < 0x80 then 1 + Utf8Length(s[1..])
    else if s[0] < 0x800 then 2 + Utf8Length(s[1..])
    else if IsPair(s) then 4 + Utf8Length(s[2..])
    else 3 + Utf8Length(s[1..])
  }

  /** The code points of a string: a pair of surrogates makes one, a lone one becomes U+FFFD. */
  function CodePoints(s: JsString): seq<nat> {
    if s == [] then []
    else if 55296 <= s[0] <= 57343 then
      if s[0] <= 56319 && |s| > 1 && 56320 <= s[1] <= 57343
        then [65536 + (s[0] - 55296) * 1024 + (s[1] - 56320)] + CodePoints(s[2..])
      else [65533] + CodePoints(s[1..])
    else [s[0]] + CodePoints(s[1..])
  }

  /** How many bytes UTF-8 takes for code points (RFC 3629, section 3). */
  function BytesOf(points: seq<nat>): nat {
    if points == [] then 0 else
      (if points[0] <= 0x7F then 1 else if points[0] <= 0x7FF then 2 else if points[0] <= 0xFFFF then 3 else 4)
      + BytesOf(points[1..])
  }

  lemma {:induction false} Utf8LengthIs(s: JsString)
    ensures Utf8Length(s) == BytesOf(CodePoints(s))
  {
    if s != [] {
      Utf8LengthIs(s[1..]);
      if |s| > 1 {
        Utf8LengthIs(s[2..]);
      }
      assert forall x: nat, rest: seq<nat> :: ([x] + rest)[1..] == rest;
    }
  }

  predicate IsAscii(s: JsString) {
    forall k :: 0 <= k < |s| ==> s[k] < 0x80
  }

  lemma {:induction false} Utf8IsLongerUnlessAscii(s: JsString)
    ensures Utf8Length(s) >= |s|
    ensures Utf8Length(s) == |s| <==> IsAscii(s)
  {
    if s != [] {
      if s[0] >= 0x800 && IsPair(s) {
        Utf8IsLongerUnlessAscii(s[2..]);
        assert !IsAscii(s);
      } else {
        Utf8IsLongerUnlessAscii(s[1..]);
        assert s == [s[0]] + s[1..];
        assert IsAscii(s) <==> s[0] < 0x80 && IsAscii(s[1..]);
      }
    }
  }

  /** What a server sends under LSP 3.17, "Base Protocol": the header counts bytes. */
  function ByteFrame(body: JsString): JsString {
    Header(Utf8Length(body)) + body
  }

  /** The client counts code units, so in front of any further output it takes out a conforming
      message exactly when the message is ASCII. */
  lemma ByteFrameExtractedIffAscii(body: JsString, t: JsString)
    ensures var p := Extract(ByteFrame(body) + t); p.bodies != [] && p.bodies[0] == body <==> IsAscii(body)
    ensures IsAscii(body) ==> Extract(ByteFrame(body) + t) == Parse([body] + Extract(t).bodies, Extract(t).rest)
  {
    hide Extract, Utf8Length, IsAscii;
    Utf8IsLongerUnlessAscii(body);
    if IsAscii(body) {
      FrameIsExtracted(body, t);
    } else {
      NonAsciiSwallowsWhatFollows(body, t);
    }
  }

  /** Otherwise it waits for as many further units as the message has bytes too many, and takes the
      message out with those appended. */
  lemma NonAsciiSwallowsWhatFollows(body: JsString, t: JsString)
    requires !IsAscii(body)
    ensures var more := Utf8Length(body) - |body|;
            && more > 0
            && Extract(ByteFrame(body) + t) ==
               if |t| < more then Parse([], ByteFrame(body) + t)
               else Parse([body + t[..more]] + Extract(t[more..]).bodies, Extract(t[more..]).rest)
  {
    hide Extract, Header, Utf8Length, IsAscii;
    Utf8IsLongerUnlessAscii(body);
    LongHeader(Utf8Length(body), body, t);
    assert ByteFrame(body) + t == Header(Utf8Length(body)) + (body + t);
  }

  /** A header that announces more than its body holds. */
  lemma LongHeader(n: nat, body: JsString, t: JsString)
    requires n > |body|
    ensures var more := n - |body|;
            var s := Header(n) + (body + t);
            Extract(s) == if |t| < more then Parse([], s)
                          else Parse([body + t[..more]] + Extract(t[more..]).bodies, Extract(t[more..]).rest)
  {
    HeaderIsFound(n, body + t);
    hide FindFrom, Header, IsHeader;
    var s, more, h := Header(n) + (body + t), n - |body|, |Header(n)|;
    if |t| >= more {
      assert s[h..h + n] == body + t[..more];
      assert s[h + n..] == t[more..];
    }
  }
}
