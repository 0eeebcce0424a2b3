/**
 * src/stores/TranscriptStore.ts: the word-level transcript with its loading
 * flag and error message, and the list actions on it.
 */
module TranscriptStore {
  import opened Common

  /** A partial word: the fields present overwrite those of the word it is merged into. */
  datatype WordPatch = WordPatch(word: Option<string>, start: Option<real>, end: Option<real>)

  /** `{ ...w, ...p }`: each field of the patch that is present wins. */
  function Merge(w: Word, p: WordPatch): (r: Word)
    ensures r.word == (if p.word.Some? then p.word.value else w.word)
    ensures r.start == (if p.start.Some? then p.start.value else w.start)
    ensures r.end == (if p.end.Some? then p.end.value else w.end)
  {
    Word(
      if p.word.Some? then p.word.value else w.word,
      if p.start.Some? then p.start.value else w.start,
      if p.end.Some? then p.end.value else w.end)
  }

  /** An empty patch changes nothing, and merging is idempotent. */
  lemma MergeLaws(w: Word, p: WordPatch)
    ensures Merge(w, WordPatch(None, None, None)) == w
    ensures Merge(Merge(w, p), p) == Merge(w, p)
  {
  }

  /** `s.filter((_, i) => i !== index)`: keep every element whose position is not `index`. */
  function Without<T>(s: seq<T>, index: int): (r: seq<T>)
    ensures 0 <= index < |s| ==> r == s[..index] + s[index + 1..]
    ensures !(0 <= index < |s|) ==> r == s
    ensures 0 <= index < |s| ==> |r| == |s| - 1
    ensures forall j :: 0 <= j < index && j < |s| ==> r[j] == s[j]
    ensures forall j :: 0 <= index <= j < |s| - 1 ==> r[j] == s[j + 1]
  {
    if |s| == 0 then []
    else
      var kept := Without(s[..|s| - 1], index);
      if |s| - 1 == index then kept else kept + [s[|s| - 1]]
  }

  class Store {
    var transcript: seq<Word>
    var isLoading: bool
    var error: Option<string>

    /** An empty transcript, not loading, no error. */
    constructor ()
      ensures transcript == [] && !isLoading && error == None
    {
      transcript := [];
      isLoading := false;
      error := None;
    }

    method SetTranscript(words: seq<Word>)
      modifies this
      ensures transcript == words
      ensures isLoading == old(isLoading) && error == old(error)
    {
      transcript := words;
    }

    /** addWord appends at the end. */
    method AddWord(w: Word)
      modifies this
      ensures transcript == old(transcript) + [w]
      ensures isLoading == old(isLoading) && error == old(error)
    {
      transcript := transcript + [w];
    }

    /** updateWord merges the patch over the word at `index`. */
    method UpdateWord(index: nat, p: WordPatch)
      requires index < |transcript|
      modifies this
      ensures |transcript| == |old(transcript)|
      ensures transcript[index] == Merge(old(transcript)[index], p)
      ensures forall j :: 0 <= j < |transcript| && j != index ==> transcript[j] == old(transcript)[j]
      ensures isLoading == old(isLoading) && error == old(error)
    {
      var newTranscript := transcript;
      newTranscript := newTranscript[index := Merge(newTranscript[index], p)];
      transcript := newTranscript;
    }

    /** removeWord drops position `index`; any other index leaves the transcript as it is. */
    method RemoveWord(index: int)
      modifies this
      ensures transcript == Without(old(transcript), index)
      ensures isLoading == old(isLoading) && error == old(error)
    {
      transcript := Without(transcript, index);
    }

    method ClearTranscript()
      modifies this
      ensures transcript == []
      ensures isLoading == old(isLoading) && error == old(error)
    {
      transcript := [];
    }

    method SetLoading(loading: bool)
      modifies this
      ensures isLoading == loading
      ensures transcript == old(transcript) && error == old(error)
    {
      isLoading := loading;
    }

    method SetError(e: Option<string>)
      modifies this
      ensures error == e
      ensures transcript == old(transcript) && isLoading == old(isLoading)
    {
      error := e;
    }
  }
}
