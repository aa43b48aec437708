/** The progressive output of one translation attempt: which bytes of the growing result
    are handed to the callback, and when. */
module Progressive {
  import opened Outside
  import opened Utf8

  const CADENCE_NS: nat := 80_000_000
  const NS_PER_MS: nat := 1_000_000

  datatype Metadata = Metadata(session: int, segment: int, revision: int, scope: seq<Byte>)

  datatype Progress = Progress(session: int, segment: int, revision: int, elapsedMs: int, text: seq<Byte>,
                               provisional: bool)

  /** One callback invocation and the clock reading it was decided on. */
  datatype Shown = Shown(progress: Progress, at: nat)

  predicate IsBlank(b: Byte) {
    b == 0x20 || b == 0x09 || b == 0x0D || b == 0x0A
  }

  /** Blanks and the six punctuation marks . ! ? , ; : end a word. */
  predicate EndsWord(b: Byte) {
    IsBlank(b) || b == 0x2E || b == 0x21 || b == 0x3F || b == 0x2C || b == 0x3B || b == 0x3A
  }

  ghost predicate IsLastBoundary(value: seq<Byte>, complete: nat, boundary: nat)
    requires complete <= |value|
  {
    && boundary <= complete
    && (boundary > 0 ==> EndsWord(value[boundary - 1]))
    && forall i :: boundary <= i < complete ==> !EndsWord(value[i])
  }

  function LastBoundary(value: seq<Byte>, complete: nat): (boundary: nat)
    requires complete <= |value|
    ensures IsLastBoundary(value, complete, boundary)
  {
    if complete == 0 || EndsWord(value[complete - 1]) then complete else LastBoundary(value, complete - 1)
  }

  method LastCompleteWordBoundary(value: seq<Byte>, completeBytes: nat) returns (boundary: nat)
    requires completeBytes <= |value|
    ensures IsLastBoundary(value, completeBytes, boundary) && boundary == LastBoundary(value, completeBytes)
  {
    boundary := 0;
    for i := 0 to completeBytes
      invariant IsLastBoundary(value, i, boundary) && boundary == LastBoundary(value, i)
    {
      if EndsWord(value[i]) { boundary := i + 1; }
    }
  }

  ghost predicate IsTrimmed(value: seq<Byte>, trimmed: seq<Byte>) {
    && trimmed <= value
    && (trimmed != [] ==> !IsBlank(trimmed[|trimmed| - 1]))
    && forall i :: |trimmed| <= i < |value| ==> IsBlank(value[i])
  }

  function Trimmed(value: seq<Byte>): (trimmed: seq<Byte>)
    ensures IsTrimmed(value, trimmed)
  {
    if value != [] && IsBlank(value[|value| - 1]) then Trimmed(value[..|value| - 1]) else value
  }

  method TrimProgress(value: seq<Byte>) returns (trimmed: seq<Byte>)
    ensures IsTrimmed(value, trimmed) && trimmed == Trimmed(value)
  {
    trimmed := value;
    while trimmed != [] && IsBlank(trimmed[|trimmed| - 1])
      invariant trimmed <= value && Trimmed(value) == Trimmed(trimmed)
      invariant forall i :: |trimmed| <= i < |value| ==> IsBlank(value[i])
    {
      trimmed := trimmed[..|trimmed| - 1];
    }
  }

  ghost function LongestUpTo(value: seq<Byte>, n: nat): (complete: nat)
    requires n <= |value|
    ensures complete <= n && WellFormed(value[..complete])
    ensures forall m :: complete < m <= n ==> !WellFormed(value[..m])
  {
    EmptyIsWellFormed();
    if n == 0 || WellFormed(value[..n]) then n else LongestUpTo(value, n - 1)
  }

  lemma LongestIsUnique(value: seq<Byte>, n: nat)
    requires IsLongest(value, n)
    ensures LongestUpTo(value, |value|) == n
  {
    hide WellFormed;
    var m := LongestUpTo(value, |value|);
    assert WellFormed(value[..m]) && WellFormed(value[..n]);
  }

  /** The end of the last finished word within the longest well-formed prefix. */
  ghost function Boundary(result: seq<Byte>): (boundary: nat)
    ensures boundary <= |result|
  {
    LastBoundary(result, LongestUpTo(result, |result|))
  }

  /** What a buffer lets the reader see: its longest well-formed prefix, cut after the last
      finished word, without trailing blanks. */
  ghost function Visible(result: seq<Byte>): (visible: seq<Byte>)
    ensures visible <= result && |visible| <= Boundary(result)
  {
    Trimmed(result[..Boundary(result)])
  }

  lemma BoundaryIsWellFormed(result: seq<Byte>)
    ensures WellFormed(result[..Boundary(result)])
  {
    var n, b := LongestUpTo(result, |result|), Boundary(result);
    EmptyIsWellFormed();
    if b > 0 {
      AsciiSplits(result[..n], b - 1);
      assert result[..n][..b] == result[..b];
    }
  }

  lemma {:induction false} TrimKeepsWellFormed(value: seq<Byte>, trimmed: seq<Byte>)
    requires WellFormed(value) && IsTrimmed(value, trimmed)
    ensures WellFormed(trimmed)
  {
    if |trimmed| < |value| {
      AsciiSplits(value, |value| - 1);
      TrimKeepsWellFormed(value[..|value| - 1], trimmed);
    } else {
      assert trimmed == value;
    }
  }

  /** The visible text is well-formed however the tokens split code points. */
  lemma VisibleIsWellFormed(result: seq<Byte>)
    ensures Visible(result) <= result && WellFormed(Visible(result))
  {
    BoundaryIsWellFormed(result);
    TrimKeepsWellFormed(result[..Boundary(result)], Visible(result));
  }

  /** Appending bytes never withdraws visible text. */
  lemma VisibleIsMonotone(result: seq<Byte>, more: seq<Byte>)
    ensures Visible(result) <= Visible(result + more)
  {
    hide WellFormed;
    var longer := result + more;
    var n, m := LongestUpTo(result, |result|), LongestUpTo(longer, |longer|);
    LongestIsMonotone(result, more, n, m);
    var b, c := Boundary(result), Boundary(longer);
    assert b <= c by {
      if b > 0 { assert longer[b - 1] == result[b - 1]; }
    }
    var v, w := Visible(result), Visible(longer);
    assert v != [] ==> longer[..c][|v| - 1] == v[|v| - 1];
  }

  /** The visible text ends a word: it is followed by nothing but blanks up to a place after a blank or
      mark, and it is the most that does: everything up to such a place in the well-formed part of the
      buffer is visible, but for blanks at its end. */
  lemma VisibleIsLongest(result: seq<Byte>, end: nat)
    requires end <= |result|
    ensures var v := Visible(result);
      && (v != [] ==> !IsBlank(v[|v| - 1]))
      && (v != [] ==> exists k :: |v| <= k <= |result| && EndsWord(result[k - 1]) && WellFormed(result[..k])
                                  && forall i :: |v| <= i < k ==> IsBlank(result[i]))
      && (end > 0 && EndsWord(result[end - 1]) && WellFormed(result[..end]) ==>
            forall i :: |v| <= i < end ==> IsBlank(result[i]))
  {
    hide WellFormed, IsBlank, EndsWord;
    var v, b, n := Visible(result), Boundary(result), LongestUpTo(result, |result|);
    BoundaryIsWellFormed(result);
    assert forall i :: |v| <= i < b ==> IsBlank(result[..b][i]);
    assert v != [] ==> |v| <= b && EndsWord(result[b - 1]);
    assert end > 0 && EndsWord(result[end - 1]) && WellFormed(result[..end]) ==> end <= n && end <= b;
  }

  /** The bytes that end a word, as characters. */
  lemma WordEnds(b: Byte)
    ensures IsBlank(b) <==> b as char in " \t\r\n"
    ensures EndsWord(b) <==> b as char in " \t\r\n.!?,;:"
  {
  }

  /** One callback after another: strictly longer text, at least 80 whole milliseconds later. */
  ghost predicate Follows(a: Shown, b: Shown) {
    a.progress.text < b.progress.text && b.progress.elapsedMs - a.progress.elapsedMs >= 80
  }

  ghost predicate Paced(shown: seq<Shown>) {
    forall i, j :: 0 <= i && j == i + 1 && j < |shown| ==> Follows(shown[i], shown[j])
  }

  ghost predicate PrefixesOf(shown: seq<Shown>, text: seq<Byte>) {
    forall i :: 0 <= i < |shown| ==>
      shown[i].progress.text != [] && shown[i].progress.text <= text && WellFormed(shown[i].progress.text)
  }

  /** A callback carries the request's identity and the floor of the time since the start. */
  ghost predicate Stamped(s: Shown, request: Metadata, start: nat) {
    && s.at - start >= CADENCE_NS
    && s.progress == Progress(request.session, request.segment, request.revision,
                              (s.at - start) / NS_PER_MS, s.progress.text, true)
  }

  /** Everything promised of one attempt's callbacks while its result is `text`. */
  ghost predicate Chain(shown: seq<Shown>, text: seq<Byte>, request: Metadata, start: nat) {
    && Paced(shown) && PrefixesOf(shown, text)
    && (forall i, j :: 0 <= i && j == i + 1 && j < |shown| ==> shown[j].at - shown[i].at >= CADENCE_NS)
    && (forall i :: 0 <= i < |shown| ==> Stamped(shown[i], request, start))
  }

  /** At most one callback for every 80 ms that passed. */
  lemma {:induction false} ChainBoundsRate(shown: seq<Shown>, text: seq<Byte>, request: Metadata, start: nat)
    requires Chain(shown, text, request, start) && shown != []
    ensures 80 * |shown| <= shown[|shown| - 1].progress.elapsedMs
  {
    var last := |shown| - 1;
    if last > 0 {
      var before := shown[..last];
      assert forall i :: 0 <= i < last ==> before[i] == shown[i];
      ChainBoundsRate(before, text, request, start);
      assert Follows(shown[last - 1], shown[last]);
    } else {
      assert Stamped(shown[0], request, start);
    }
  }

  lemma {:induction false} ChainIsChronological(shown: seq<Shown>, text: seq<Byte>, request: Metadata, start: nat)
    requires Chain(shown, text, request, start) && shown != []
    ensures start <= shown[0].at <= shown[|shown| - 1].at
    ensures shown[0].progress.elapsedMs == (shown[0].at - start) / NS_PER_MS >= 80
  {
    assert Stamped(shown[0], request, start);
    var last := |shown| - 1;
    if last > 0 {
      var before := shown[..last];
      assert forall i :: 0 <= i < last ==> before[i] == shown[i];
      ChainIsChronological(before, text, request, start);
    }
  }

  lemma ChainGrowsWithText(shown: seq<Shown>, text: seq<Byte>, longer: seq<Byte>, request: Metadata, start: nat)
    requires Chain(shown, text, request, start) && text <= longer
    ensures Chain(shown, longer, request, start)
  {
  }

  /** The publisher of one attempt: when it last published, how much, and all it published. */
  datatype Stream = Stream(request: Metadata, start: nat, lastAt: nat, lastBytes: nat, shown: seq<Shown>)

  function Opened(request: Metadata, start: nat): Stream {
    Stream(request, start, start, 0, [])
  }

  /** The stream while the result is `text`: its callbacks are a chain and it remembers the last. */
  ghost predicate Coherent(s: Stream, text: seq<Byte>) {
    && Chain(s.shown, text, s.request, s.start)
    && if s.shown == [] then s.lastAt == s.start && s.lastBytes == 0
       else var last := s.shown[|s.shown| - 1]; s.lastAt == last.at && s.lastBytes == |last.progress.text|
  }

  datatype Published = Published(stream: Stream, at: Moment, threw: bool)

  /** Offers a result to the reader. The clock is read only when a word was finished since the last
      callback; the callback is foreign code and may throw. */
  ghost function PublishRun(w: World, hasCallback: bool, s: Stream, result: seq<Byte>, at: Moment): Published {
    if !hasCallback || Boundary(result) <= s.lastBytes then Published(s, at, false)
    else
      var ticked := AfterTick(w, at);
      var visible := Visible(result);
      if ticked.now - s.lastAt < CADENCE_NS || |visible| <= s.lastBytes then Published(s, ticked, false)
      else
        var shown := s.shown + [Preview(s, visible, ticked.now)];
        if w.fails(ticked.calls) then Published(s.(shown := shown), AfterCall(ticked), true)
        else Published(s.(lastAt := ticked.now, lastBytes := |visible|, shown := shown), AfterCall(ticked), false)
  }

  function Preview(s: Stream, visible: seq<Byte>, now: nat): Shown {
    Shown(Progress(s.request.session, s.request.segment, s.request.revision,
                   (now - s.start) / NS_PER_MS, visible, true), now)
  }

  /** Publishing keeps the callbacks a chain, even when the last of them throws. */
  lemma PublishKeepsChain(w: World, hasCallback: bool, s: Stream, text: seq<Byte>, piece: seq<Byte>, at: Moment)
    requires Coherent(s, text) && s.lastAt <= at.now
    ensures var p := PublishRun(w, hasCallback, s, text + piece, at);
      && Chain(p.stream.shown, text + piece, s.request, s.start)
      && p.stream.request == s.request && p.stream.start == s.start && p.stream.lastAt <= p.at.now
      && (!p.threw ==> Coherent(p.stream, text + piece))
      && (!hasCallback ==> p.stream == s && p.at == at && !p.threw)
  {
    hide WellFormed, LongestUpTo, LastBoundary, Trimmed, Boundary, Visible;
    var result := text + piece;
    var p := PublishRun(w, hasCallback, s, result, at);
    VisibleIsWellFormed(result);
    ChainGrowsWithText(s.shown, text, result, s.request, s.start);
    if p.stream.shown != s.shown {
      if s.shown != [] { ChainIsChronological(s.shown, text, s.request, s.start); }
      ChainExtends(s.shown, p.stream.shown[|s.shown|], result, s.request, s.start, s.lastAt, s.lastBytes);
    }
  }

  /** A callback is made exactly when there is one, the text shows more than the last callback did, and
      80 ms have passed since; it carries the visible text and the floored time since the start. */
  lemma PublishedIff(w: World, hasCallback: bool, s: Stream, result: seq<Byte>, at: Moment)
    ensures var p, now := PublishRun(w, hasCallback, s, result, at), at.now + w.elapsed(at.ticks);
      && (p.stream.shown != s.shown <==>
            hasCallback && |Visible(result)| > s.lastBytes && now - s.lastAt >= 80_000_000)
      && (p.stream.shown != s.shown ==>
            && |p.stream.shown| == |s.shown| + 1 && s.shown <= p.stream.shown
            && p.stream.shown[|s.shown|] == Shown(Progress(s.request.session, s.request.segment, s.request.revision,
                                                          (now - s.start) / 1_000_000, Visible(result), true), now)
            && (p.threw <==> w.fails(at.calls))
            && (!p.threw ==> p.stream.lastAt == now && p.stream.lastBytes == |Visible(result)|))
      && (p.threw ==> p.stream.shown != s.shown)
      && (p.stream.shown == s.shown || p.threw ==> p.stream.lastAt == s.lastAt && p.stream.lastBytes == s.lastBytes)
  {
    hide Boundary, Visible;
    assert |Visible(result)| <= Boundary(result);
  }

  class ProgressStream {
    const request: Metadata
    const start: nat
    var lastProgressAt: nat
    var lastPublishedBytes: nat
    var firstVisibleMs: int
    var shown: seq<Shown>

    constructor (request: Metadata, start: nat)
      ensures AsStream() == Opened(request, start) && Valid()
    {
      this.request, this.start := request, start;
      lastProgressAt, lastPublishedBytes, firstVisibleMs, shown := start, 0, 0, [];
    }

    function AsStream(): Stream
      reads this
    {
      Stream(request, start, lastProgressAt, lastPublishedBytes, shown)
    }

    /** The first visible time is that of the first callback. */
    ghost predicate Valid()
      reads this
    {
      && start <= lastProgressAt
      && if shown == [] then firstVisibleMs == 0 else firstVisibleMs == shown[0].progress.elapsedMs > 0
    }

    /** Offers the current result to the callback. */
    method Publish(env: Environment, hasCallback: bool, result: seq<Byte>) returns (threw: bool)
      requires Valid()
      modifies this, env
      ensures Published(AsStream(), env.at, threw)
              == PublishRun(env.world, hasCallback, old(AsStream()), result, old(env.at))
      ensures !threw ==> Valid()
    {
      hide IsLongest, WellFormed, LongestUpTo, LastBoundary, Trimmed, IsLastBoundary, IsTrimmed;
      threw := false;
      if !hasCallback { return; }
      var validBytes := CompleteUtf8Prefix(result);
      LongestIsUnique(result, validBytes);
      var boundary := LastCompleteWordBoundary(result, validBytes);
      if boundary <= lastPublishedBytes { return; }
      var now := env.Now();
      if now - lastProgressAt < CADENCE_NS { return; }
      var visible := TrimProgress(result[..boundary]);
      if |visible| <= lastPublishedBytes { return; }
      var progress := Progress(request.session, request.segment, request.revision, (now - start) / NS_PER_MS,
                               visible, true);
      shown := shown + [Shown(progress, now)];
      var returned := env.Call();
      if !returned { return true; }
      lastPublishedBytes := |progress.text|;
      lastProgressAt := now;
      if firstVisibleMs == 0 { firstVisibleMs := progress.elapsedMs; }
    }
  }

  lemma ChainExtends(past: seq<Shown>, next: Shown, text: seq<Byte>, request: Metadata, start: nat,
                     lastAt: nat, lastBytes: nat)
    requires Chain(past, text, request, start)
    requires if past == [] then lastAt == start && lastBytes == 0
             else lastAt == past[|past| - 1].at && lastBytes == |past[|past| - 1].progress.text|
    requires next.at - lastAt >= CADENCE_NS && |next.progress.text| > lastBytes
    requires next.progress.text <= text && WellFormed(next.progress.text)
    requires Stamped(next, request, start)
    ensures Chain(past + [next], text, request, start)
  {
    hide WellFormed;
    var all := past + [next];
    if past != [] {
      var last := past[|past| - 1];
      assert Stamped(last, request, start) && last.progress.text <= text;
      assert Follows(last, next);
    }
    forall i, j | 0 <= i && j == i + 1 && j < |all|
      ensures Follows(all[i], all[j]) && all[j].at - all[i].at >= CADENCE_NS
    {
      if j < |past| {
        assert Follows(past[i], past[j]);
      }
    }
  }
}
