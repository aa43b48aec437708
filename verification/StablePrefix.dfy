/** Which part of a live recognition hypothesis counts as settled. */
module StablePrefix {

  /** The characters that Python's str.isspace accepts, which are also those str.strip removes. */
  predicate IsSpace(c: char) {
    || '\U{0009}' <= c <= '\U{000D}' || '\U{001C}' <= c <= '\U{0020}'
    || c == '\U{0085}' || c == '\U{00A0}' || c == '\U{1680}' || '\U{2000}' <= c <= '\U{200A}'
    || c == '\U{2028}' || c == '\U{2029}' || c == '\U{202F}' || c == '\U{205F}' || c == '\U{3000}'
  }

  /** The eight marks after which a commit may end: the ideographic full stop, the full-width
      exclamation and question marks, the full-width comma, and . ! ? , */
  predicate IsMark(c: char) {
    || c == '\U{3002}' || c == '\U{FF01}' || c == '\U{FF1F}' || c == '\U{FF0C}'
    || c == '.' || c == '!' || c == '?' || c == ','
  }

  function TrimEnd(s: string): (t: string)
    ensures t <= s && (t != "" ==> !IsSpace(t[|t| - 1]))
    ensures forall i :: |t| <= i < |s| ==> IsSpace(s[i])
  {
    if s != "" && IsSpace(s[|s| - 1]) then TrimEnd(s[..|s| - 1]) else s
  }

  function TrimStart(s: string): string {
    if s != "" && IsSpace(s[0]) then TrimStart(s[1..]) else s
  }

  function Strip(s: string): (t: string)
    ensures t != "" ==> !IsSpace(t[|t| - 1])
  {
    TrimEnd(TrimStart(s))
  }

  /** Stripping takes off exactly the whitespace at both ends. */
  lemma {:induction false} StripTakesEnds(s: string) returns (first: nat, end: nat)
    ensures first <= end <= |s| && Strip(s) == s[first..end]
    ensures forall i :: 0 <= i < |s| && !(first <= i < end) ==> IsSpace(s[i])
    ensures first < end ==> !IsSpace(s[first]) && !IsSpace(s[end - 1])
  {
    hide IsSpace;
    if s != "" && IsSpace(s[0]) {
      first, end := StripTakesEnds(s[1..]);
      assert s[1..][first..end] == s[first + 1..end + 1];
      assert forall i :: 1 <= i < |s| ==> s[i] == s[1..][i - 1];
      first, end := first + 1, end + 1;
    } else {
      first, end := 0, |TrimEnd(s)|;
    }
  }

  /** Whitespace around a hypothesis makes no difference to anything. */
  lemma WhitespaceIsIgnored(s: State, hypothesis: string, space: char)
    requires IsSpace(space)
    ensures Next(s, [space] + hypothesis) == Next(s, hypothesis)
    ensures Next(s, hypothesis + [space]) == Next(s, hypothesis)
  {
    hide IsSpace;
    assert ([space] + hypothesis)[1..] == hypothesis;
    TrailingSpace(hypothesis, space);
  }

  lemma {:induction false} TrailingSpace(s: string, space: char)
    requires IsSpace(space)
    ensures Strip(s + [space]) == Strip(s)
  {
    hide IsSpace;
    if s == "" {
      assert s + [space] == [space] && [space][1..] == "" && [space][..0] == "";
    } else if IsSpace(s[0]) {
      TrailingSpace(s[1..], space);
      assert (s + [space])[1..] == s[1..] + [space];
    } else {
      assert (s + [space])[..|s|] == s;
    }
  }

  /** The characters themselves, one by one. */
  lemma CharactersListed(c: char)
    ensures IsMark(c) <==> c in ".!?,\U{3002}\U{FF01}\U{FF1F}\U{FF0C}"
    ensures IsSpace(c) <==>
              || c in " \t\n\r\U{000B}\U{000C}\U{001C}\U{001D}\U{001E}\U{001F}\U{0085}\U{00A0}\U{1680}"
              || c in "\U{2000}\U{2001}\U{2002}\U{2003}\U{2004}\U{2005}\U{2006}\U{2007}\U{2008}\U{2009}\U{200A}"
              || c in "\U{2028}\U{2029}\U{202F}\U{205F}\U{3000}"
  {
  }

  /** The number of leading characters two strings share. */
  function Shared(a: string, b: string): (n: nat)
    ensures n <= |a| && n <= |b| && a[..n] == b[..n]
    ensures n < |a| && n < |b| ==> a[n] != b[n]
  {
    if a == "" || b == "" || a[0] != b[0] then 0
    else
      var n := Shared(a[1..], b[1..]);
      assert a[..n + 1] == [a[0]] + a[1..][..n] && b[..n + 1] == [b[0]] + b[1..][..n];
      n + 1
  }

  /** Retreats to a place after a space or a mark. */
  function BackOff(s: string, end: nat): (r: nat)
    requires end <= |s|
    ensures r <= end && (r > 0 ==> IsSpace(s[r - 1]) || IsMark(s[r - 1]))
    ensures forall i :: r <= i < end ==> !IsSpace(s[i]) && !IsMark(s[i])
  {
    if end > 0 && !IsSpace(s[end - 1]) && !IsMark(s[end - 1]) then BackOff(s, end - 1) else end
  }

  datatype State = State(previous: string, committed: string)

  const INITIAL := State("", "")

  function Candidate(previous: string, text: string): string {
    var common := Shared(previous, text);
    var end := if common < |text| && !IsSpace(text[common]) then BackOff(previous, common) else common;
    TrimEnd(text[..end])
  }

  /** The branch that keeps the old commit instead of the candidate. */
  predicate Keeps(s: State, text: string) {
    s.committed <= text && |Candidate(s.previous, text)| < |s.committed|
  }

  function Next(s: State, hypothesis: string): State {
    var text := Strip(hypothesis);
    State(text, if Keeps(s, text) then s.committed else Candidate(s.previous, text))
  }

  method CountShared(previous: string, text: string) returns (common: nat)
    ensures common == Shared(previous, text)
  {
    common := 0;
    while common < |previous| && common < |text| && previous[common] == text[common]
      invariant common <= |previous| && common <= |text|
      invariant Shared(previous, text) == common + Shared(previous[common..], text[common..])
    {
      assert previous[common..][1..] == previous[common + 1..] && text[common..][1..] == text[common + 1..];
      common := common + 1;
    }
  }

  method Retreat(previous: string, common: nat) returns (end: nat)
    requires common <= |previous|
    ensures end == BackOff(previous, common)
  {
    end := common;
    while end > 0 && !IsSpace(previous[end - 1]) && !IsMark(previous[end - 1])
      invariant end <= common && BackOff(previous, common) == BackOff(previous, end)
    {
      end := end - 1;
    }
  }

  class StablePrefix {
    var previous: string
    var committed: string

    constructor ()
      ensures AsState() == INITIAL
    {
      previous, committed := "", "";
    }

    function AsState(): State
      reads this
    {
      State(previous, committed)
    }

    method Accept(hypothesis: string) returns (commit: string)
      modifies this
      ensures AsState() == Next(old(AsState()), hypothesis) && commit == committed
    {
      hide IsSpace, IsMark, Strip, TrimEnd, BackOff, Shared;
      var text := Strip(hypothesis);
      var common := CountShared(previous, text);
      var end := common;
      if common < |text| && !IsSpace(text[common]) {
        end := Retreat(previous, end);
      }
      var candidate := TrimEnd(text[..end]);
      committed := if committed <= text && |candidate| < |committed| then committed else candidate;
      previous := text;
      return committed;
    }
  }

  // What each hypothesis keeps.

  ghost predicate Valid(s: State) {
    && s.committed <= s.previous
    && s.previous == TrimEnd(s.previous) && s.committed == TrimEnd(s.committed)
  }

  /** A commit ends where the text does, before a space, after a mark, or is empty. */
  predicate EndsCleanly(commit: string, text: string)
    requires commit <= text
  {
    commit == "" || commit == text || IsSpace(text[|commit|]) || IsMark(commit[|commit| - 1])
  }

  /** Prefixes of one string are ordered by length. */
  lemma PrefixesCompare(a: string, b: string, s: string)
    requires a <= s && b <= s && |a| <= |b|
    ensures a <= b
  {
  }

  lemma CandidateIsShared(previous: string, text: string)
    ensures var c := Candidate(previous, text); c <= previous && c <= text
  {
  }

  lemma CandidateIsTrimmed(previous: string, text: string)
    ensures var c := Candidate(previous, text); c == TrimEnd(c)
  {
    var common := Shared(previous, text);
    var end := if common < |text| && !IsSpace(text[common]) then BackOff(previous, common) else common;
    TrimEndTwice(text[..end]);
  }

  /** A candidate never cuts the text in the middle of a word. */
  lemma CandidateEndsCleanly(previous: string, text: string)
    ensures Candidate(previous, text) <= text && EndsCleanly(Candidate(previous, text), text)
  {
    hide IsSpace, IsMark, Shared;
    CandidateIsShared(previous, text);
    var c, common := Candidate(previous, text), Shared(previous, text);
    var end := if common < |text| && !IsSpace(text[common]) then BackOff(previous, common) else common;
    TrimmedText(text, end);
    if |c| == end && 0 < end < |text| && !IsSpace(text[end]) {
      assert c[end - 1] == previous[end - 1];
    }
  }

  lemma TrimmedText(text: string, end: nat)
    requires end <= |text|
    ensures var c := TrimEnd(text[..end]); c <= text && |c| <= end && (|c| < end ==> IsSpace(text[|c|]))
  {
    var c := TrimEnd(text[..end]);
    assert |c| < end ==> text[..end][|c|] == text[|c|];
  }

  /** Nothing longer could be committed: the candidate is the longest shared prefix that ends
      cleanly and not in whitespace. */
  lemma CandidateIsLongest(previous: string, text: string, other: string)
    requires other <= previous && other <= text && EndsCleanly(other, text)
    requires other != "" ==> !IsSpace(other[|other| - 1])
    ensures |other| <= |Candidate(previous, text)|
  {
  }

  lemma TrimEndTwice(s: string)
    ensures TrimEnd(TrimEnd(s)) == TrimEnd(s)
  {
  }

  /** One step: the commit is a common prefix of the last two stripped hypotheses; commits are
      comparable, and one shrinks exactly when the new hypothesis contradicts it. */
  lemma StepKeeps(s: State, hypothesis: string)
    requires Valid(s)
    ensures var s' := Next(s, hypothesis);
      && Valid(s')
      && s'.committed <= s.previous && s'.committed <= s'.previous
      && (s.committed <= s'.committed <==> s.committed <= s'.previous)
      && (s'.committed < s.committed <==> !(s.committed <= s'.previous))
  {
    hide TrimEnd, TrimStart, Candidate;
    var text := Strip(hypothesis);
    TrimEndTwice(TrimStart(hypothesis));
    CandidateIsShared(s.previous, text);
    CandidateIsTrimmed(s.previous, text);
    var c := Candidate(s.previous, text);
    if |s.committed| <= |c| {
      PrefixesCompare(s.committed, c, s.previous);
    } else {
      PrefixesCompare(c, s.committed, s.previous);
    }
  }

  /** The same hypothesis twice settles all of it. */
  lemma RepeatCommitsAll(s: State, hypothesis: string)
    requires Valid(s) && Strip(hypothesis) == s.previous
    ensures Next(s, hypothesis) == State(s.previous, s.previous)
  {
    var text := s.previous;
    SharedPrefix(text, text);
    assert text[..|text|] == text;
  }

  lemma {:induction false} SharedPrefix(a: string, b: string)
    requires a <= b
    ensures Shared(a, b) == |a|
  {
  }

  /** The commit shown cuts the new text in a word exactly when the old commit was kept: the
      candidate never does, and had the old commit been clean, the candidate would be as long. */
  lemma CleanUnlessKept(s: State, hypothesis: string)
    requires Valid(s)
    ensures var s' := Next(s, hypothesis);
      && s'.committed <= s'.previous
      && (EndsCleanly(s'.committed, s'.previous) <==> !Keeps(s, Strip(hypothesis)))
  {
    hide IsSpace, TrimStart, Candidate, EndsCleanly, TrimEnd;
    var text := Strip(hypothesis);
    CandidateEndsCleanly(s.previous, text);
    if Keeps(s, text) && EndsCleanly(s.committed, text) {
      TrimmedEnd(s.committed);
      CandidateIsLongest(s.previous, text, s.committed);
    }
  }

  lemma TrimmedEnd(s: string)
    requires s == TrimEnd(s) && s != ""
    ensures !IsSpace(s[|s| - 1])
  {
  }

  /** A single word: no spaces and no marks. */
  predicate IsWord(w: string) {
    w != "" && forall i :: 0 <= i < |w| ==> !IsSpace(w[i]) && !IsMark(w[i])
  }

  /** It does happen, for every word and every longer word that starts with it: a fragment that
      was recognised twice is committed, and stays committed when it grows. */
  lemma KeptFragment(fragment: string, word: string)
    requires IsWord(fragment) && IsWord(word) && fragment < word
    ensures var s := Next(Next(Next(INITIAL, fragment), fragment), word);
            s == State(word, fragment) && !EndsCleanly(s.committed, s.previous)
  {
    hide IsSpace, IsMark;
    StripsToItself(fragment);
    StripsToItself(word);
    var once := Next(INITIAL, fragment);
    CandidateIsShared("", fragment);
    assert once == State(fragment, "");
    RepeatCommitsAll(once, fragment);
    SharedPrefix(fragment, word);
    NothingToBackOffTo(fragment, |fragment|);
    assert Candidate(fragment, word) == "" by { assert word[..0] == ""; }
  }

  lemma StripsToItself(s: string)
    requires s != "" && !IsSpace(s[0]) && !IsSpace(s[|s| - 1])
    ensures Strip(s) == TrimEnd(s) == s
  {
  }

  lemma {:induction false} NothingToBackOffTo(s: string, end: nat)
    requires end <= |s| && forall i :: 0 <= i < end ==> !IsSpace(s[i]) && !IsMark(s[i])
    ensures BackOff(s, end) == 0
  {
  }

  // Whole sequences of hypotheses.

  function Run(hypotheses: seq<string>): State {
    if hypotheses == [] then INITIAL else Next(Run(hypotheses[..|hypotheses| - 1]), hypotheses[|hypotheses| - 1])
  }

  lemma RunStep(hypotheses: seq<string>, i: nat)
    requires i < |hypotheses|
    ensures Run(hypotheses[..i + 1]) == Next(Run(hypotheses[..i]), hypotheses[i])
  {
    assert hypotheses[..i + 1][..i] == hypotheses[..i];
  }

  lemma {:induction false} RunIsValid(hypotheses: seq<string>, i: nat)
    requires i <= |hypotheses|
    ensures Valid(Run(hypotheses[..i]))
  {
    hide Next, Strip;
    if i > 0 {
      RunIsValid(hypotheses, i - 1);
      RunStep(hypotheses, i - 1);
      StepKeeps(Run(hypotheses[..i - 1]), hypotheses[i - 1]);
    }
  }

  /** Hypothesis i starts with what was committed before it. */
  ghost predicate Agrees(hypotheses: seq<string>, i: nat)
    requires i < |hypotheses|
  {
    Run(hypotheses[..i]).committed <= Strip(hypotheses[i])
  }

  /** Between two points of a run, what was committed stays committed as long as no hypothesis
      contradicts it, and the first hypothesis that does withdraws part of it. */
  lemma {:induction false} NothingWithdrawn(hypotheses: seq<string>, first: nat, last: nat)
    requires first <= last <= |hypotheses|
    requires forall i :: first <= i < last ==> Agrees(hypotheses, i)
    ensures Run(hypotheses[..first]).committed <= Run(hypotheses[..last]).committed
    ensures last < |hypotheses| && !Agrees(hypotheses, last) ==>
              Run(hypotheses[..last + 1]).committed < Run(hypotheses[..last]).committed
    decreases last
  {
    hide Run, Next, Strip, Valid;
    if last < |hypotheses| {
      RunIsValid(hypotheses, last);
      RunStep(hypotheses, last);
      StepKeeps(Run(hypotheses[..last]), hypotheses[last]);
      NextPrevious(Run(hypotheses[..last]), hypotheses[last]);
    }
    if first < last {
      NothingWithdrawn(hypotheses, first, last - 1);
      RunIsValid(hypotheses, last - 1);
      RunStep(hypotheses, last - 1);
      StepKeeps(Run(hypotheses[..last - 1]), hypotheses[last - 1]);
      NextPrevious(Run(hypotheses[..last - 1]), hypotheses[last - 1]);
      assert Agrees(hypotheses, last - 1);
    }
  }

  lemma NextPrevious(s: State, hypothesis: string)
    ensures Next(s, hypothesis).previous == Strip(hypothesis)
  {
  }
}
