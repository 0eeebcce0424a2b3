/**
 * Shared value types of the transcript engine: a word of the transcript,
 * an invalid-segment annotation, and the few sequence and string helpers
 * (findIndex, slice, join) that several components use.
 */
module Common {

  datatype Option<T> = None | Some(value: T)

  /** One transcribed word with its start and end time in seconds. */
  datatype Word = Word(word: string, start: real, end: real)

  /** The three kinds of invalid segment. */
  datatype SegmentKind = Repetition | LongPause | FillerWords

  /**
   * An invalid-segment annotation: a time interval with its kind, and the
   * optional text and inclusive word-index range filled in by the mapper.
   */
  datatype Invalid = Invalid(
    startTime: real,
    endTime: real,
    kind: SegmentKind,
    isEntire: bool,
    text: Option<string>,
    startIndex: Option<nat>,
    endIndex: Option<nat>)

  /** Index of the first element satisfying `p`, or None (findIndex's -1). */
  function FindIndex<T>(s: seq<T>, p: T -> bool): (r: Option<nat>)
    ensures r.Some? ==> r.value < |s| && p(s[r.value])
    ensures r.Some? ==> forall j :: 0 <= j < r.value ==> !p(s[j])
    ensures r.None? ==> forall j :: 0 <= j < |s| ==> !p(s[j])
  {
    if |s| == 0 then None
    else if p(s[0]) then Some(0)
    else match FindIndex(s[1..], p)
      case None => None
      case Some(k) => Some(k + 1)
  }

  /** The `word` fields of a run of words. */
  function Texts(ws: seq<Word>): (r: seq<string>)
    ensures |r| == |ws|
    ensures forall i :: 0 <= i < |ws| ==> r[i] == ws[i].word
  {
    seq(|ws|, i requires 0 <= i < |ws| => ws[i].word)
  }

  /** `parts.join(' ')`. */
  function Join(parts: seq<string>): string
  {
    if |parts| == 0 then ""
    else if |parts| == 1 then parts[0]
    else parts[0] + " " + Join(parts[1..])
  }

  /** Array.prototype.slice(from, to) for non-negative bounds: both are clamped to the length. */
  function Slice<T>(s: seq<T>, from: nat, to: nat): (r: seq<T>)
    ensures from <= to <= |s| ==> r == s[from..to]
    ensures |s| <= from ==> r == []
  {
    var a := if from < |s| then from else |s|;
    var b := if to < |s| then to else |s|;
    if a <= b then s[a..b] else []
  }

  lemma {:induction false} JoinAppend(parts: seq<string>, last: string)
    requires |parts| > 0
    ensures Join(parts + [last]) == Join(parts) + " " + last
  {
    if |parts| == 1 {
      assert parts + [last] == [parts[0], last];
    } else {
      assert (parts + [last])[1..] == parts[1..] + [last];
      JoinAppend(parts[1..], last);
    }
  }
}
