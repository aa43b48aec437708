/** Assembling a transcript from rolling captions: each cue repeats some of the words before it,
    and only what is new is appended. Words are compared by their normalised keys. */
module VttMerge {

  function Keys<W, K>(words: seq<W>, normalize: W -> K): (keys: seq<K>)
    ensures |keys| == |words|
  {
    seq(|words|, i requires 0 <= i < |words| => normalize(words[i]))
  }

  predicate EndsWith<K(==)>(s: seq<K>, tail: seq<K>) {
    |tail| <= |s| && s[|s| - |tail|..] == tail
  }

  /** The first `size` keys of the cue are the last `size` keys so far. */
  predicate Overlaps<K(==)>(canonical: seq<K>, keys: seq<K>, size: nat) {
    size <= |keys| && EndsWith(canonical, keys[..size])
  }

  /** The shortest way to go on from `before` such that the cue's keys come last. */
  ghost predicate IsShortestExtension<K(!new)>(before: seq<K>, keys: seq<K>, after: seq<K>) {
    && before <= after && EndsWith(after, keys)
    && forall more: seq<K> :: EndsWith(before + more, keys) ==> |after| <= |before + more|
  }

  lemma KeysConcat<W, K>(a: seq<W>, b: seq<W>, normalize: W -> K)
    ensures Keys(a + b, normalize) == Keys(a, normalize) + Keys(b, normalize)
  {
  }

  lemma KeysSuffix<W, K>(words: seq<W>, from: nat, normalize: W -> K)
    requires from <= |words|
    ensures Keys(words[from..], normalize) == Keys(words, normalize)[from..]
  {
  }

  method LargestOverlap<K(==)>(canonical: seq<K>, keys: seq<K>) returns (overlap: nat)
    ensures Overlaps(canonical, keys, overlap)
    ensures forall size: nat :: Overlaps(canonical, keys, size) ==> size <= overlap
  {
    var size := if |keys| < |canonical| then |keys| else |canonical|;
    while size > 0
      invariant size <= |keys| && size <= |canonical|
      invariant forall larger: nat :: Overlaps(canonical, keys, larger) ==> larger <= size
    {
      if canonical[|canonical| - size..] == keys[..size] { return size; }
      size := size - 1;
    }
    return 0;
  }

  /** Appending the keys beyond the largest overlap is the shortest extension, and the only one. */
  lemma LargestOverlapIsShortest<K(!new)>(canonical: seq<K>, keys: seq<K>, overlap: nat)
    requires Overlaps(canonical, keys, overlap)
    requires forall size: nat :: Overlaps(canonical, keys, size) ==> size <= overlap
    ensures IsShortestExtension(canonical, keys, canonical + keys[overlap..])
  {
    var after := canonical + keys[overlap..];
    assert after[|after| - |keys|..] == canonical[|canonical| - overlap..] + keys[overlap..] == keys;
    forall more: seq<K> | EndsWith(canonical + more, keys) ensures |after| <= |canonical + more| {
      if |more| < |keys| {
        var size := |keys| - |more|;
        var whole := canonical + more;
        assert keys[..size] == whole[|whole| - |keys|..][..size] == canonical[|canonical| - size..];
        assert Overlaps(canonical, keys, size);
      }
    }
  }

  lemma ShortestExtensionIsUnique<K(!new)>(before: seq<K>, keys: seq<K>, a: seq<K>, b: seq<K>)
    requires IsShortestExtension(before, keys, a) && IsShortestExtension(before, keys, b)
    ensures a == b
  {
    // the cue's keys cover everything new
    assert EndsWith(before + keys, keys) by { assert (before + keys)[|before|..] == keys; }
    assert a == before + a[|before|..] && b == before + b[|before|..];
    assert |a| == |b|;
    var start := |a| - |keys|;
    assert start <= |before|;
    forall i | |before| <= i < |a| ensures a[i] == b[i] {
      assert a[i] == a[start..][i - start] && b[i] == b[start..][i - start];
    }
  }

  /** Repeating a cue appends nothing. */
  lemma RepeatAppendsNothing<K(!new)>(before: seq<K>, keys: seq<K>, after: seq<K>)
    requires EndsWith(before, keys) && IsShortestExtension(before, keys, after)
    ensures after == before
  {
    assert before + [] == before;
  }

  ghost predicate Contains<K(!new)>(s: seq<K>, part: seq<K>) {
    exists at: nat :: IsAt(s, part, at)
  }

  predicate IsAt<K(==)>(s: seq<K>, part: seq<K>, at: nat) {
    at + |part| <= |s| && s[at..at + |part|] == part
  }

  lemma ContainsAfterGrowth<K(!new)>(s: seq<K>, part: seq<K>, longer: seq<K>)
    requires Contains(s, part) && s <= longer
    ensures Contains(longer, part)
  {
    var at: nat :| IsAt(s, part, at);
    assert longer[at..at + |part|] == s[at..at + |part|];
    assert IsAt(longer, part, at);
  }

  /** A cue adds the end of its words, as many as its transcript grew by. */
  ghost predicate AppendsEnd<W>(before: seq<W>, words: seq<W>, after: seq<W>) {
    |before| <= |after| <= |before| + |words| && after == before + words[|words| - (|after| - |before|)..]
  }

  /** The transcript after each cue: every cue adds the end of its words, and the keys of the
      transcript take the shortest extension. */
  ghost predicate Follows<W, K(!new)>(cues: seq<seq<W>>, normalize: W -> K, texts: seq<seq<W>>) {
    && |texts| == |cues| + 1 && texts[0] == []
    && forall c :: 0 <= c < |cues| ==>
         && AppendsEnd(texts[c], cues[c], texts[c + 1])
         && (cues[c] != [] ==>
               IsShortestExtension(Keys(texts[c], normalize), Keys(cues[c], normalize), Keys(texts[c + 1], normalize)))
  }

  /** One cue. */
  method AppendCue<W, K(==, !new)>(assembled: seq<W>, canonical: seq<K>, words: seq<W>, normalize: W -> K)
      returns (assembled': seq<W>, canonical': seq<K>)
    requires canonical == Keys(assembled, normalize) && words != []
    ensures canonical' == Keys(assembled', normalize)
    ensures AppendsEnd(assembled, words, assembled')
    ensures IsShortestExtension(canonical, Keys(words, normalize), canonical')
  {
    var keys := Keys(words, normalize);
    var overlap := LargestOverlap(canonical, keys);
    LargestOverlapIsShortest(canonical, keys, overlap);
    if overlap == |words| {
      assert canonical + keys[overlap..] == canonical && assembled + words[overlap..] == assembled;
      return assembled, canonical;
    }
    assembled', canonical' := assembled + words[overlap..], canonical + keys[overlap..];
    KeysSuffix(words, overlap, normalize);
    KeysConcat(assembled, words[overlap..], normalize);
  }

  method Assemble<W, K(==, !new)>(cues: seq<seq<W>>, normalize: W -> K)
      returns (assembled: seq<W>, canonical: seq<K>, ghost texts: seq<seq<W>>)
    ensures canonical == Keys(assembled, normalize)
    ensures Follows(cues, normalize, texts) && texts[|cues|] == assembled
    ensures forall c :: 0 <= c < |cues| ==> Contains(canonical, Keys(cues[c], normalize))
  {
    assembled, canonical, texts := [], [], [[]];
    for c := 0 to |cues|
      invariant canonical == Keys(assembled, normalize)
      invariant Follows(cues[..c], normalize, texts) && texts[c] == assembled
      invariant forall d :: 0 <= d < c ==> Contains(canonical, Keys(cues[d], normalize))
    {
      var words := cues[c];
      ghost var before := canonical;
      if words != [] {
        assembled, canonical := AppendCue(assembled, canonical, words, normalize);
      }
      ghost var keys := Keys(words, normalize);
      assert IsAt(canonical, keys, |canonical| - |keys|);
      forall d | 0 <= d < c ensures Contains(canonical, Keys(cues[d], normalize)) {
        ContainsAfterGrowth(before, Keys(cues[d], normalize), canonical);
      }
      FollowsOneMore(cues, c, normalize, texts, assembled);
      texts := texts + [assembled];
    }
    assert cues[..|cues|] == cues;
  }

  lemma FollowsOneMore<W, K(!new)>(cues: seq<seq<W>>, c: nat, normalize: W -> K, texts: seq<seq<W>>, next: seq<W>)
    requires c < |cues| && Follows(cues[..c], normalize, texts) && AppendsEnd(texts[c], cues[c], next)
    requires cues[c] != [] ==>
               IsShortestExtension(Keys(texts[c], normalize), Keys(cues[c], normalize), Keys(next, normalize))
    ensures Follows(cues[..c + 1], normalize, texts + [next])
  {
  }
}
