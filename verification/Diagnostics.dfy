/** The bounded diagnostic buffer: every report is counted, the first ones are kept. */
module Diagnostics {

  datatype Diagnostic =
    | AccessConflict(epoch: nat, firstSubgroup: nat, secondSubgroup: nat, firstAddress: nat, secondAddress: nat,
                     firstSize: nat, secondSize: nat, firstSite: nat, secondSite: nat)
    | MetadataFull(epoch: nat, subgroup: nat, address: nat, offset: nat, size: nat)
    | BarrierDivergence(expected: nat, observed: nat)

  class DiagnosticBuffer {
    const records: array<Diagnostic>
    var count: nat

    /** Every report since the workgroup started, kept or not. */
    ghost var history: seq<Diagnostic>

    ghost predicate Valid()
      reads this, records
    {
      && (records.Length == 0 ==> history == [])
      && count == |history|
      && (forall i :: 0 <= i < records.Length && i < |history| ==> records[i] == history[i])
    }

    constructor (records: array<Diagnostic>)
      ensures Valid() && this.records == records && history == []
    {
      this.records := records;
      this.count := 0;
      this.history := [];
    }

    method Emit(d: Diagnostic)
      requires Valid()
      modifies this, records
      ensures Valid()
      ensures history == if records.Length == 0 then old(history) else old(history) + [d]
    {
      if records.Length == 0 {
        return;
      }
      var index := count;
      count := count + 1;
      if index < records.Length {
        records[index] := d;
      }
      history := history + [d];
    }
  }
}
