/**
 * Placement of MTD partitions given as a table whose offsets may be
 * `MTDPART_OFS_APPEND` ("right after the previous partition") and whose last
 * size may be `MTDPART_SIZ_FULL` ("up to the end of the device").
 */
module MtdLayout {
  import opened Wrappers

  datatype PartOffset = At(offset: nat) | Append
  datatype PartSize = Sized(bytes: nat) | Full

  /** One `struct mtd_partition` entry; mask flags are not modelled. */
  datatype Partition = Partition(name: string, offset: PartOffset, size: PartSize)

  /**
   * The offsets of a table can be resolved without knowing the device size:
   * no appended partition follows one that runs to the end of the device, and
   * an appended first partition has a start to append to.
   */
  predicate Resolvable(parts: seq<Partition>, start: Option<nat>)
  {
    && (|parts| > 0 && parts[0].offset.Append? ==> start.Some?)
    && forall i :: 0 < i < |parts| && parts[i].offset.Append? ==> parts[i - 1].size.Sized?
  }

  /**
   * Resolves every offset: a fixed offset stands, an appended one is the
   * previous offset plus the previous size (or `start` for the first entry).
   */
  function Offsets(parts: seq<Partition>, start: Option<nat>): (r: Option<seq<nat>>)
    ensures r.Some? <==> Resolvable(parts, start)
    ensures r.Some? ==> |r.value| == |parts|
    ensures r.Some? && |parts| > 0 && parts[0].offset.Append? ==> r.value[0] == start.value
    ensures r.Some? ==> forall i :: 0 <= i < |parts| && parts[i].offset.At? ==> r.value[i] == parts[i].offset.offset
    ensures r.Some? ==>
      forall i :: 0 < i < |parts| && parts[i].offset.Append? ==> r.value[i] == r.value[i - 1] + parts[i - 1].size.bytes
    decreases |parts|
  {
    if parts == [] then Some([])
    else
      var off := match parts[0].offset case At(o) => Some(o) case Append => start;
      if off.None? then None
      else
        var next := match parts[0].size case Sized(n) => Some(off.value + n) case Full => None;
        var rest := Offsets(parts[1..], next);
        assert forall i :: 1 <= i < |parts| ==> parts[1..][i - 1] == parts[i];
        if rest.None? then None else Some([off.value] + rest.value)
  }

  /**
   * In a table whose first partition starts at `start` (fixed there or
   * appended to it) and whose later partitions are all appended, no two
   * partitions overlap: each sized partition ends at or before every later
   * one starts.
   */
  lemma {:induction false} AppendedPartitionsAreContiguous(parts: seq<Partition>, start: nat)
    requires |parts| > 0 ==> parts[0].offset == At(start) || parts[0].offset.Append?
    requires forall i :: 0 < i < |parts| ==> parts[i].offset.Append?
    requires forall i :: 0 <= i < |parts| - 1 ==> parts[i].size.Sized?
    ensures Offsets(parts, Some(start)).Some?
    ensures var offs := Offsets(parts, Some(start)).value;
      |parts| > 0 ==> offs[0] == start
    ensures var offs := Offsets(parts, Some(start)).value;
      forall i, j :: 0 <= i < j < |parts| ==> offs[i] + parts[i].size.bytes <= offs[j]
  {
    var offs := Offsets(parts, Some(start)).value;
    var sizes := seq(|parts|, k requires 0 <= k < |parts| => match parts[k].size case Sized(n) => n case Full => 0);
    forall i, j | 0 <= i < j < |parts|
      ensures offs[i] + parts[i].size.bytes <= offs[j]
    {
      OffsetsGrow(offs, sizes, i, j);
    }
  }

  /** Along offsets that each add the previous size, a later offset lies at or beyond the end of an earlier entry. */
  lemma {:induction false} OffsetsGrow(offs: seq<nat>, sizes: seq<nat>, i: nat, j: nat)
    requires |offs| == |sizes| && i < j < |offs|
    requires forall k :: 0 < k < |offs| ==> offs[k] == offs[k - 1] + sizes[k - 1]
    ensures offs[i] + sizes[i] <= offs[j]
    decreases j - i
  {
    if j > i + 1 {
      OffsetsGrow(offs, sizes, i, j - 1);
    }
  }
}
