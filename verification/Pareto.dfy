/** Selecting the measurements that no other measurement dominates. */
module Pareto {

  /** Recognition: all five figures are better when lower. */
  datatype AsrMeasures = AsrMeasures(wer: real, cer: real, rtf: real, stableSourceMs: real, rewrites: real)

  predicate AsrDominates(left: AsrMeasures, right: AsrMeasures) {
    && left.wer <= right.wer && left.cer <= right.cer && left.rtf <= right.rtf
    && left.stableSourceMs <= right.stableSourceMs && left.rewrites <= right.rewrites
    && (|| left.wer < right.wer || left.cer < right.cer || left.rtf < right.rtf
        || left.stableSourceMs < right.stableSourceMs || left.rewrites < right.rewrites)
  }

  /** Translation: two scores are better when higher, the median latency when lower; p95 is not compared. */
  datatype MtMeasures = MtMeasures(chrf: real, bleu: real, p50Ms: real, p95Ms: real)

  predicate MtDominates(left: MtMeasures, right: MtMeasures) {
    && left.chrf >= right.chrf && left.bleu >= right.bleu && left.p50Ms <= right.p50Ms
    && (left.chrf > right.chrf || left.bleu > right.bleu || left.p50Ms < right.p50Ms)
  }

  ghost predicate IsStrictOrder<M(!new)>(dominates: (M, M) -> bool) {
    && (forall a :: !dominates(a, a))
    && (forall a, b, c :: dominates(a, b) && dominates(b, c) ==> dominates(a, c))
  }

  lemma BothAreStrictOrders()
    ensures IsStrictOrder(AsrDominates) && IsStrictOrder(MtDominates)
  {
  }

  /** Bettering one figure alone dominates, and worsening any figure never does. */
  lemma AsrDirections(m: AsrMeasures, other: AsrMeasures, gain: real)
    requires gain > 0.0
    ensures AsrDominates(m.(wer := m.wer - gain), m) && AsrDominates(m.(cer := m.cer - gain), m)
    ensures AsrDominates(m.(rtf := m.rtf - gain), m)
    ensures AsrDominates(m.(stableSourceMs := m.stableSourceMs - gain), m)
    ensures AsrDominates(m.(rewrites := m.rewrites - gain), m)
    ensures (|| other.wer > m.wer || other.cer > m.cer || other.rtf > m.rtf
             || other.stableSourceMs > m.stableSourceMs || other.rewrites > m.rewrites) ==> !AsrDominates(other, m)
  {
  }

  lemma MtDirections(m: MtMeasures, other: MtMeasures, gain: real)
    requires gain > 0.0
    ensures MtDominates(m.(chrf := m.chrf + gain), m) && MtDominates(m.(bleu := m.bleu + gain), m)
    ensures MtDominates(m.(p50Ms := m.p50Ms - gain), m)
    ensures MtDominates(m, other) ==> MtDominates(m.(p95Ms := m.p95Ms + gain), other)
    ensures (other.chrf < m.chrf || other.bleu < m.bleu || other.p50Ms > m.p50Ms) ==> !MtDominates(other, m)
  {
  }

  datatype Row<M> = Row(id: string, after: M, pareto: bool)

  /** No row under another identifier dominates row i. */
  predicate Undominated<M>(rows: seq<Row<M>>, dominates: (M, M) -> bool, i: nat)
    requires i < |rows|
  {
    forall j :: 0 <= j < |rows| && rows[j].id != rows[i].id ==> !dominates(rows[j].after, rows[i].after)
  }

  /** One more row decides against row i exactly if it has another identifier and dominates. */
  lemma OneMoreRow<M>(rows: seq<Row<M>>, more: Row<M>, dominates: (M, M) -> bool, i: nat)
    requires i < |rows|
    ensures Undominated(rows + [more], dominates, i)
            <==> Undominated(rows, dominates, i) && !(more.id != rows[i].id && dominates(more.after, rows[i].after))
    ensures Undominated([more], dominates, 0)
  {
    var all := rows + [more];
    assert all[|rows|] == more && all[i] == rows[i];
    assert forall j :: 0 <= j < |rows| ==> all[j] == rows[j];
  }

  /** Sets every row's flag in place. */
  method MarkPareto<M>(rows: array<Row<M>>, dominates: (M, M) -> bool)
    modifies rows
    ensures forall i :: 0 <= i < rows.Length ==>
              rows[i] == old(rows[i]).(pareto := Undominated(old(rows[..]), dominates, i))
  {
    hide Undominated;
    ghost var given := rows[..];
    for i := 0 to rows.Length
      invariant forall k :: 0 <= k < i ==> rows[k] == given[k].(pareto := Undominated(given, dominates, k))
      invariant forall k :: i <= k < rows.Length ==> rows[k] == given[k]
    {
      var dominated := IsDominated(rows, dominates, i, given);
      rows[i] := rows[i].(pareto := !dominated);
    }
  }

  /** The inner search; flags set so far play no part in it. */
  method IsDominated<M>(rows: array<Row<M>>, dominates: (M, M) -> bool, i: nat, ghost given: seq<Row<M>>)
      returns (dominated: bool)
    requires i < rows.Length == |given|
    requires forall k :: 0 <= k < rows.Length ==> rows[k].id == given[k].id && rows[k].after == given[k].after
    ensures dominated <==> !Undominated(given, dominates, i)
  {
    for j := 0 to rows.Length
      invariant forall k :: 0 <= k < j && given[k].id != given[i].id ==> !dominates(given[k].after, given[i].after)
    {
      if rows[j].id != rows[i].id && dominates(rows[j].after, rows[i].after) { return true; }
    }
    return false;
  }

  ghost function Dominators<M(!new)>(rows: seq<Row<M>>, dominates: (M, M) -> bool, i: nat): set<nat>
    requires i < |rows|
  {
    set k: nat | k < |rows| && dominates(rows[k].after, rows[i].after)
  }

  /** Every row that is left out is dominated by a row that is kept, not merely by another left out. */
  lemma {:induction false} KeptRowDominates<M(!new)>(rows: seq<Row<M>>, dominates: (M, M) -> bool, i: nat)
      returns (kept: nat)
    requires IsStrictOrder(dominates) && i < |rows|
    ensures kept < |rows| && Undominated(rows, dominates, kept)
    ensures if Undominated(rows, dominates, i) then kept == i else dominates(rows[kept].after, rows[i].after)
    decreases Dominators(rows, dominates, i)
  {
    if Undominated(rows, dominates, i) {
      kept := i;
    } else {
      var j: nat :| j < |rows| && rows[j].id != rows[i].id && dominates(rows[j].after, rows[i].after);
      assert j in Dominators(rows, dominates, i) && j !in Dominators(rows, dominates, j);
      kept := KeptRowDominates(rows, dominates, j);
    }
  }

  /** What the selection keeps: something whenever there is anything, and, when identifiers are
      distinct, nothing that another kept row dominates. */
  lemma FrontierIsAntichain<M(!new)>(rows: seq<Row<M>>, dominates: (M, M) -> bool)
    requires IsStrictOrder(dominates)
    ensures rows != [] ==> exists i: nat :: i < |rows| && Undominated(rows, dominates, i)
    ensures (forall i, j :: 0 <= i < j < |rows| ==> rows[i].id != rows[j].id) ==>
              forall i: nat, j: nat :: i < |rows| && j < |rows| &&
                  Undominated(rows, dominates, i) && Undominated(rows, dominates, j)
                ==> !dominates(rows[i].after, rows[j].after)
  {
    if rows != [] {
      var kept := KeptRowDominates(rows, dominates, 0);
    }
  }

  /** Keeping a row only depends on the set of the others: removing a row that is left out changes nothing. */
  lemma DroppedRowIsIrrelevant<M(!new)>(rows: seq<Row<M>>, dominates: (M, M) -> bool, out: nat, i: nat)
    requires IsStrictOrder(dominates) && out < |rows| && i < |rows| && i != out
    requires forall i, j :: 0 <= i < j < |rows| ==> rows[i].id != rows[j].id
    requires !Undominated(rows, dominates, out)
    ensures var rest := rows[..out] + rows[out + 1..];
            Undominated(rest, dominates, if i < out then i else i - 1) <==> Undominated(rows, dominates, i)
  {
    var rest := rows[..out] + rows[out + 1..];
    var i' := if i < out then i else i - 1;
    assert rest[i'] == rows[i];
    if !Undominated(rows, dominates, i) {
      var kept := KeptRowDominates(rows, dominates, i);
      var kept' := if kept < out then kept else kept - 1;
      assert rest[kept'] == rows[kept];
      assert rest[kept'].id != rest[i'].id;
    }
    if Undominated(rows, dominates, i) {
      forall j | 0 <= j < |rest| && rest[j].id != rest[i'].id ensures !dominates(rest[j].after, rest[i'].after) {
        assert rest[j] == rows[if j < out then j else j + 1];
      }
    }
  }
}
