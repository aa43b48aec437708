/** Validation of device recordings: the capture trace, the corrected segments, and the
    separation of the benchmark splits. */
module DeviceCorpus {
  import opened Options

  const SAMPLE_RATE: nat := 16_000
  const NS_PER_SAMPLE: nat := 62_500
  const TOLERANCE_NS: nat := 250_000_000

  datatype InputMode = Microphone | WavInjection | OtherMode

  datatype Chunk = Chunk(first: int, count: int, timestamp: int)

  datatype Capture = Capture(captured: int, saved: int, dropped: int, firstNs: int, lastNs: int, chunks: seq<Chunk>)

  function Abs(x: int): nat {
    if x < 0 then -x else x
  }

  /** A chunk directly after another: no gap, time does not go back, and the step is the duration
      of the samples up to a quarter of a second. */
  ghost predicate Continues(a: Chunk, b: Chunk) {
    && b.first == a.first + a.count
    && a.timestamp <= b.timestamp && Abs(b.timestamp - a.timestamp - NS_PER_SAMPLE * a.count) <= TOLERANCE_NS
  }

  ghost predicate IsTrace(chunks: seq<Chunk>, frames: int) {
    && chunks != [] && chunks[0].first == 0
    && (forall k :: 0 <= k < |chunks| ==> chunks[k].count > 0)
    && (forall i, j :: 0 <= i && j == i + 1 && j < |chunks| ==> Continues(chunks[i], chunks[j]))
    && var last := chunks[|chunks| - 1]; last.first + last.count == frames
  }

  ghost predicate IsCapture(c: Capture, frames: int) {
    && c.captured == frames && c.saved == frames && c.dropped == 0
    && 0 < c.firstNs <= c.lastNs
    && IsTrace(c.chunks, frames)
  }

  /** round(count * 1_000_000_000 / rate) at the one rate that passes inspection. */
  function DurationNs(count: int): int {
    count * 1_000_000_000 / SAMPLE_RATE
  }

  lemma DurationIsExact(count: int)
    ensures DurationNs(count) == NS_PER_SAMPLE * count
  {
  }

  method ValidateCapture(mode: InputMode, capture: Option<Capture>, frameCount: int) returns (accepted: bool)
    ensures accepted <==> mode != OtherMode
                          && (if capture == None then mode != Microphone else IsCapture(capture.value, frameCount))
  {
    if mode == OtherMode { return false; }
    if mode == Microphone && capture == None { return false; }
    if capture == None { return true; }
    var c := capture.value;
    if c.captured != frameCount || c.saved != frameCount { return false; }
    if c.dropped != 0 { return false; }
    if c.firstNs <= 0 || c.lastNs < c.firstNs { return false; }
    accepted := ValidateChunks(c.chunks, frameCount);
  }

  method ValidateChunks(chunks: seq<Chunk>, frameCount: int) returns (accepted: bool)
    ensures accepted <==> IsTrace(chunks, frameCount)
  {
    if chunks == [] { return false; }
    var nextSample := 0;
    var prior: Option<(int, int)> := None;
    for k := 0 to |chunks|
      invariant prior == if k == 0 then None else Some((chunks[k - 1].timestamp, chunks[k - 1].count))
      invariant nextSample == if k == 0 then 0 else chunks[k - 1].first + chunks[k - 1].count
      invariant k > 0 ==> chunks[0].first == 0
      invariant forall i :: 0 <= i < k ==> chunks[i].count > 0
      invariant forall i, j :: 0 <= i && j == i + 1 && j < k ==> Continues(chunks[i], chunks[j])
    {
      var chunk := chunks[k];
      if chunk.first != nextSample || chunk.count <= 0 {
        if k > 0 { assert !Continues(chunks[k - 1], chunks[k]) || chunk.count <= 0; }
        return false;
      }
      if prior != None {
        DurationIsExact(prior.value.1);
        var expected := prior.value.0 + DurationNs(prior.value.1);
        if chunk.timestamp < prior.value.0 || Abs(chunk.timestamp - expected) > TOLERANCE_NS {
          assert !Continues(chunks[k - 1], chunks[k]);
          return false;
        }
      }
      nextSample := nextSample + chunk.count;
      prior := Some((chunk.timestamp, chunk.count));
    }
    accepted := nextSample == frameCount;
  }

  /** Starts, ends and timestamps never go back along an accepted trace. */
  lemma {:induction false} TraceAdvances(chunks: seq<Chunk>, frames: int, i: nat, j: nat)
    requires IsTrace(chunks, frames) && i < j < |chunks|
    ensures chunks[i].first + chunks[i].count <= chunks[j].first && chunks[i].timestamp <= chunks[j].timestamp
  {
    assert Continues(chunks[j - 1], chunks[j]);
    if i < j - 1 { TraceAdvances(chunks, frames, i, j - 1); }
  }

  function Samples(chunks: seq<Chunk>): int {
    if chunks == [] then 0 else Samples(chunks[..|chunks| - 1]) + chunks[|chunks| - 1].count
  }

  lemma {:induction false} SamplesSoFar(chunks: seq<Chunk>, frames: int, k: nat)
    requires IsTrace(chunks, frames) && k < |chunks|
    ensures Samples(chunks[..k + 1]) == chunks[k].first + chunks[k].count
  {
    assert chunks[..k + 1][..k] == chunks[..k];
    if k > 0 {
      SamplesSoFar(chunks, frames, k - 1);
      assert Continues(chunks[k - 1], chunks[k]);
    }
  }

  /** An accepted capture accounts for every sample: its chunks hold as many as were captured, saved and
      are in the file, and none was dropped. */
  lemma CaptureConserves(c: Capture, frames: int)
    requires IsCapture(c, frames)
    ensures Samples(c.chunks) == frames == c.captured == c.saved && c.dropped == 0
  {
    SamplesSoFar(c.chunks, frames, |c.chunks| - 1);
    assert c.chunks[..|c.chunks|] == c.chunks;
  }

  predicate Covers(chunk: Chunk, sample: int) {
    chunk.first <= sample < chunk.first + chunk.count
  }

  lemma {:induction false} SomeChunkCovers(chunks: seq<Chunk>, frames: int, sample: int, k: nat) returns (c: nat)
    requires IsTrace(chunks, frames) && k < |chunks| && 0 <= sample < chunks[k].first + chunks[k].count
    ensures c < |chunks| && Covers(chunks[c], sample)
  {
    c := k;
    if sample < chunks[k].first {
      assert Continues(chunks[k - 1], chunks[k]);
      c := SomeChunkCovers(chunks, frames, sample, k - 1);
    }
  }

  /** An accepted trace tiles the recording: every sample is in exactly one chunk, and no chunk
      reaches outside. */
  lemma TraceTiles(chunks: seq<Chunk>, frames: int, sample: int)
    requires IsTrace(chunks, frames)
    ensures 0 <= sample < frames <==> exists c :: 0 <= c < |chunks| && Covers(chunks[c], sample)
    ensures forall c, d :: 0 <= c < |chunks| && 0 <= d < |chunks| ==>
              Covers(chunks[c], sample) && Covers(chunks[d], sample) ==> c == d
  {
    var last := |chunks| - 1;
    if 0 <= sample < frames {
      var c := SomeChunkCovers(chunks, frames, sample, last);
    }
    forall c, d | 0 <= c < d < |chunks| && Covers(chunks[c], sample) ensures !Covers(chunks[d], sample) {
      TraceAdvances(chunks, frames, c, d);
    }
    forall c | 0 <= c < |chunks| && Covers(chunks[c], sample) ensures 0 <= sample < frames {
      if c > 0 { TraceAdvances(chunks, frames, 0, c); }
      if c < last { TraceAdvances(chunks, frames, c, last); }
    }
  }

  /** How far chunk k's clock may be from the sample count: a quarter of a second for every chunk before it. */
  lemma {:induction false} DriftIsBounded(chunks: seq<Chunk>, frames: int, k: nat)
    requires IsTrace(chunks, frames) && k < |chunks|
    ensures Abs(chunks[k].timestamp - (chunks[0].timestamp + 62_500 * chunks[k].first)) <= k * 250_000_000
  {
    if k > 0 {
      DriftIsBounded(chunks, frames, k - 1);
      assert Continues(chunks[k - 1], chunks[k]);
    }
  }

  /** The bound is reached: the validator checks steps, so an accepted trace can drift without limit. */
  lemma DriftAccumulates(k: nat) returns (chunks: seq<Chunk>)
    ensures |chunks| == k + 1 && IsTrace(chunks, k + 1)
    ensures chunks[k].timestamp == chunks[0].timestamp + 62_500 * chunks[k].first + k * 250_000_000
  {
    chunks := seq(k + 1, i => Chunk(i, 1, 1 + i * (NS_PER_SAMPLE + TOLERANCE_NS)));
    forall i, j | 0 <= i && j == i + 1 && j < |chunks| ensures Continues(chunks[i], chunks[j]) {
    }
  }

  // Corrected segments.

  datatype Segment = Segment(start: int, end: int, pcmSha256: string)

  /** Segments lie in the recording, follow one another, and carry the hash of their own samples. */
  ghost predicate AreSlices(segments: seq<Segment>, frames: int, hash: (int, int) -> string) {
    && (forall k :: 0 <= k < |segments| ==>
          var s := segments[k]; 0 <= s.start < s.end <= frames && hash(s.start, s.end) == s.pcmSha256)
    && (forall i, j :: 0 <= i && j == i + 1 && j < |segments| ==> segments[i].end <= segments[j].start)
  }

  method ValidateCorrectionSlices(segments: seq<Segment>, frameCount: int, hash: (int, int) -> string)
      returns (accepted: bool)
    ensures accepted <==> AreSlices(segments, frameCount, hash)
  {
    var previousEnd := 0;
    for k := 0 to |segments|
      invariant previousEnd == if k == 0 then 0 else segments[k - 1].end
      invariant previousEnd >= 0 && AreSlices(segments[..k], frameCount, hash)
    {
      var s := segments[k];
      if s.start < previousEnd || s.start < 0 || s.end <= s.start || s.end > frameCount {
        if k > 0 && s.start >= 0 {
          assert segments[k - 1].end > segments[k].start || s.end <= s.start || s.end > frameCount;
        }
        return false;
      }
      if hash(s.start, s.end) != s.pcmSha256 { return false; }
      SliceAdded(segments, k, frameCount, hash);
      previousEnd := s.end;
    }
    assert segments[..|segments|] == segments;
    return true;
  }

  lemma SliceAdded(segments: seq<Segment>, k: nat, frames: int, hash: (int, int) -> string)
    requires k < |segments| && AreSlices(segments[..k], frames, hash)
    requires var s := segments[k]; 0 <= s.start < s.end <= frames && hash(s.start, s.end) == s.pcmSha256
    requires k > 0 ==> segments[k - 1].end <= segments[k].start
    ensures AreSlices(segments[..k + 1], frames, hash)
  {
  }

  /** Accepted segments are pairwise disjoint. */
  lemma {:induction false} SlicesAreDisjoint(segments: seq<Segment>, frames: int, hash: (int, int) -> string,
                                             i: nat, j: nat)
    requires AreSlices(segments, frames, hash) && i < j < |segments|
    ensures 0 <= segments[i].start < segments[i].end <= segments[j].start < segments[j].end <= frames
  {
    if i < j - 1 { SlicesAreDisjoint(segments, frames, hash, i, j - 1); }
  }

  // Splits.

  datatype Split = Tuning | Validation | FinalHoldout

  datatype Report = Report(id: string, split: Split, sha256: string)

  ghost predicate DistinctIds(reports: seq<Report>) {
    forall i, j :: 0 <= i < j < |reports| ==> reports[i].id != reports[j].id
  }

  /** No identifier twice, and no audio file in two splits. */
  ghost predicate IsSeparated(reports: seq<Report>) {
    && DistinctIds(reports)
    && (forall i, j :: 0 <= i < j < |reports| && reports[i].sha256 == reports[j].sha256 ==>
          reports[i].split == reports[j].split)
  }

  ghost function IdsOf(reports: seq<Report>): set<string> {
    set r | r in reports :: r.id
  }

  lemma NextId(reports: seq<Report>, k: nat)
    requires k < |reports| && DistinctIds(reports[..k])
    ensures if reports[k].id in IdsOf(reports[..k]) then !DistinctIds(reports) else DistinctIds(reports[..k + 1])
    ensures IdsOf(reports[..k + 1]) == IdsOf(reports[..k]) + {reports[k].id}
  {
    var before, after := reports[..k], reports[..k + 1];
    assert after == before + [reports[k]];
    if reports[k].id in IdsOf(before) {
      var r :| r in before && r.id == reports[k].id;
      var i :| 0 <= i < k && before[i] == r;
      assert reports[i].id == reports[k].id;
    }
  }

  /** The hash sets per split hold exactly the reports' hashes. */
  ghost predicate Collects(reports: seq<Report>, hashes: map<Split, set<string>>) {
    && (forall i :: 0 <= i < |reports| ==> reports[i].split in hashes && reports[i].sha256 in hashes[reports[i].split])
    && (forall s, h :: s in hashes && h in hashes[s] ==> exists r :: r in reports && r.split == s && r.sha256 == h)
  }

  /** Collects identifiers and hashes; stops at a repeated identifier. */
  method Collect(reports: seq<Report>) returns (distinct: bool, hashes: map<Split, set<string>>, names: seq<Split>)
    ensures distinct <==> DistinctIds(reports)
    ensures distinct ==> Collects(reports, hashes) && (forall s :: s in names <==> s in hashes)
    ensures forall i, j :: 0 <= i < j < |names| ==> names[i] != names[j]
  {
    var ids: set<string> := {};
    hashes, names := map[], [];
    assert Collects(reports[..0], hashes) && IdsOf(reports[..0]) == {};
    hide Collects, IdsOf, DistinctIds;
    for k := 0 to |reports|
      invariant ids == IdsOf(reports[..k]) && DistinctIds(reports[..k])
      invariant Collects(reports[..k], hashes)
      invariant forall s :: s in names <==> s in hashes
      invariant forall i, j :: 0 <= i < j < |names| ==> names[i] != names[j]
    {
      NextId(reports, k);
      var r := reports[k];
      if r.id in ids { return false, hashes, names; }
      ids := ids + {r.id};
      ghost var before := hashes;
      if r.split in hashes {
        hashes := hashes[r.split := hashes[r.split] + {r.sha256}];
      } else {
        hashes := hashes[r.split := {r.sha256}];
        names := names + [r.split];
        assert {} + {r.sha256} == {r.sha256};
      }
      CollectsOneMore(reports, k, before, hashes);
    }
    assert reports[..|reports|] == reports;
    distinct := true;
  }

  lemma CollectsOneMore(reports: seq<Report>, k: nat, before: map<Split, set<string>>, hashes: map<Split, set<string>>)
    requires k < |reports| && Collects(reports[..k], before)
    requires var r := reports[k];
             hashes == before[r.split := (if r.split in before then before[r.split] else {}) + {r.sha256}]
    ensures Collects(reports[..k + 1], hashes)
  {
  }

  /** Compares every two splits' hash sets. */
  method SplitsAreDisjoint(hashes: map<Split, set<string>>, names: seq<Split>) returns (disjoint: bool)
    requires forall s :: s in names <==> s in hashes
    requires forall i, j :: 0 <= i < j < |names| ==> names[i] != names[j]
    ensures disjoint <==> forall s, t :: s in hashes && t in hashes && s != t ==> hashes[s] !! hashes[t]
  {
    for index := 0 to |names|
      invariant forall i, j :: 0 <= i < index && i < j < |names| ==> hashes[names[i]] !! hashes[names[j]]
    {
      for other := index + 1 to |names|
        invariant forall j :: index < j < other ==> hashes[names[index]] !! hashes[names[j]]
      {
        var shared := hashes[names[index]] * hashes[names[other]];
        assert forall h :: h in shared <==> h in hashes[names[index]] && h in hashes[names[other]];
        if shared != {} {
          ghost var h :| h in shared;
          return false;
        }
      }
    }
    return true;
  }

  method ValidateManifest(reports: seq<Report>) returns (accepted: bool)
    ensures accepted <==> reports != [] && IsSeparated(reports)
  {
    if reports == [] { return false; }
    var distinct, hashes, names := Collect(reports);
    if !distinct { return false; }
    accepted := SplitsAreDisjoint(hashes, names);
    DisjointMeansSeparated(reports, hashes);
  }

  lemma DisjointMeansSeparated(reports: seq<Report>, hashes: map<Split, set<string>>)
    requires Collects(reports, hashes)
    ensures (forall s, t :: s in hashes && t in hashes && s != t ==> hashes[s] !! hashes[t])
            <==> forall i, j :: 0 <= i < j < |reports| && reports[i].sha256 == reports[j].sha256 ==>
                   reports[i].split == reports[j].split
  {
  }
}
