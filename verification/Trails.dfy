/**
 A workflow's writes to the audit trail.

 Recording an entry is an activity that may fail or be cancelled: the workflow then raises, and
 the entry may or may not have been stored. A fault says at which length of the trail that
 happens. A workflow's story is the list of entries it records when nothing faults.
 */
module Trails {
  import opened Prelude
  import opened AuditEvents

  datatype Fault = Fault(at: nat, stored: bool)

  /** The fault does not strike while `count` entries are recorded from length `start`. */
  predicate Spares(fault: Option<Fault>, start: nat, count: nat)
  {
    fault.Some? ==> fault.value.at < start || start + count <= fault.value.at
  }

  /** What reaches the trail of a story told from length `start`. */
  function Written(fault: Option<Fault>, start: nat, story: seq<Entry>): seq<Entry>
  {
    if Spares(fault, start, |story|) then story
    else story[..fault.value.at - start + (if fault.value.stored then 1 else 0)]
  }

  class Trail {
    var entries: seq<Entry>
    const fault: Option<Fault>

    constructor (fault: Option<Fault>)
      ensures this.fault == fault && entries == []
    {
      this.fault := fault;
      entries := [];
    }

    /** `base` is followed by the first `i` entries of the story so far, and nothing has struck. */
    ghost predicate Midway(base: seq<Entry>, story: seq<Entry>, i: nat)
      reads this
    {
      i <= |story| && entries == base + story[..i] && Spares(fault, |base|, i)
    }

    /** The workflow raised while telling the story. */
    ghost predicate Struck(base: seq<Entry>, story: seq<Entry>)
      reads this
    {
      !Spares(fault, |base|, |story|) && entries == base + Written(fault, |base|, story)
    }

    /** The whole story was told. */
    ghost predicate Told(base: seq<Entry>, story: seq<Entry>)
      reads this
    {
      Spares(fault, |base|, |story|) && entries == base + story
    }

    /** Record the next entry of a story. */
    method Record(e: Entry, ghost base: seq<Entry>, ghost story: seq<Entry>, ghost i: nat) returns (ok: bool)
      requires Midway(base, story, i) && i < |story| && story[i] == e
      modifies this`entries
      ensures ok ==> Midway(base, story, i + 1)
      ensures ok && i + 1 == |story| ==> Told(base, story)
      ensures !ok ==> Struck(base, story)
    {
      assert story[..i + 1] == story[..i] + [e];
      assert i + 1 == |story| ==> story[..i + 1] == story;
      ok := fault.None? || fault.value.at != |entries|;
      if ok || fault.value.stored {
        entries := entries + [e];
      }
    }
  }
}
