/**
 * src/apis/api.ts: simplifyInvalidModels, the projection of the editor's
 * annotations onto the four fields that are saved. The network calls around
 * it are not part of this model.
 */
module Api {
  import opened Common
  import ProcessInvalidSegments

  /** `Pick<InvalidModel, 'start_time' | 'end_time' | 'type' | 'is_entire'>`. */
  datatype Saved = Saved(startTime: real, endTime: real, kind: SegmentKind, isEntire: bool)

  function SavedOf(x: Invalid): Saved
  {
    Saved(x.startTime, x.endTime, x.kind, x.isEntire)
  }

  /** simplifyInvalidModels: each annotation keeps its interval, kind and `is_entire`, in order. */
  function Simplify(invalids: seq<Invalid>): (r: seq<Saved>)
    ensures |r| == |invalids|
    ensures forall i :: 0 <= i < |invalids| ==>
      && r[i].startTime == invalids[i].startTime && r[i].endTime == invalids[i].endTime
      && r[i].kind == invalids[i].kind && r[i].isEntire == invalids[i].isEntire
  {
    seq(|invalids|, i requires 0 <= i < |invalids| => SavedOf(invalids[i]))
  }

  /** A saved record read back as an annotation carries no text and no word indices. */
  function Restore(s: Saved): (r: Invalid)
    ensures r.text.None? && r.startIndex.None? && r.endIndex.None?
    ensures SavedOf(r) == s
  {
    Invalid(s.startTime, s.endTime, s.kind, s.isEntire, None, None, None)
  }

  function RestoreAll(saved: seq<Saved>): (r: seq<Invalid>)
    ensures |r| == |saved|
    ensures forall i :: 0 <= i < |saved| ==> r[i] == Restore(saved[i])
  {
    seq(|saved|, i requires 0 <= i < |saved| => Restore(saved[i]))
  }

  /** Simplifying is idempotent: restoring and simplifying again changes nothing. */
  lemma SimplifyIdempotent(invalids: seq<Invalid>)
    ensures Simplify(RestoreAll(Simplify(invalids))) == Simplify(invalids)
  {
  }

  /** Two annotation lists save the same data iff they agree on the four saved fields, entry by entry. */
  lemma SimplifyEqual(a: seq<Invalid>, b: seq<Invalid>)
    ensures Simplify(a) == Simplify(b) <==>
      |a| == |b| && forall i :: 0 <= i < |a| ==> SavedOf(a[i]) == SavedOf(b[i])
  {
    if |a| == |b| && forall i :: 0 <= i < |a| ==> SavedOf(a[i]) == SavedOf(b[i]) {
      assert forall i :: 0 <= i < |a| ==> Simplify(a)[i] == Simplify(b)[i];
    }
    if Simplify(a) == Simplify(b) {
      assert forall i :: 0 <= i < |a| ==> Simplify(a)[i] == SavedOf(a[i]) && Simplify(b)[i] == SavedOf(b[i]);
    }
  }

  /** Resolving word indices and texts does not change what is saved. */
  lemma MappingNotSaved(segs: seq<Invalid>, t: seq<Word>)
    ensures Simplify(ProcessInvalidSegments.ProcessInvalidSegments(segs, t)) == Simplify(segs)
  {
    var r := ProcessInvalidSegments.ProcessInvalidSegments(segs, t);
    assert forall k :: 0 <= k < |r| ==> SavedOf(r[k]) == SavedOf(segs[k]);
    SimplifyEqual(r, segs);
  }
}
