/**
 * src/stores/InvalidStore.ts: the three-slot annotation store. `apiResponse`
 * holds what the server returned, `saveCheckpoint` the last saved state and
 * `editing` the list being edited; the two reset actions copy one slot over
 * the others.
 */
module InvalidStore {
  import opened Common

  class Store {
    var apiResponse: seq<Invalid>
    var saveCheckpoint: seq<Invalid>
    var editing: seq<Invalid>

    /** All three slots start empty. */
    constructor ()
      ensures apiResponse == [] && saveCheckpoint == [] && editing == []
    {
      apiResponse := [];
      saveCheckpoint := [];
      editing := [];
    }

    /** setApiResponse: a fresh server answer replaces all three slots. */
    method SetApiResponse(invalids: seq<Invalid>)
      modifies this
      ensures apiResponse == invalids && saveCheckpoint == invalids && editing == invalids
    {
      apiResponse := invalids;
      saveCheckpoint := invalids;
      editing := invalids;
    }

    /** setSaveCheckpoint changes only the checkpoint slot. */
    method SetSaveCheckpoint(invalids: seq<Invalid>)
      modifies this
      ensures saveCheckpoint == invalids
      ensures apiResponse == old(apiResponse) && editing == old(editing)
    {
      saveCheckpoint := invalids;
    }

    /** setEditing changes only the editing slot. */
    method SetEditing(invalids: seq<Invalid>)
      modifies this
      ensures editing == invalids
      ensures apiResponse == old(apiResponse) && saveCheckpoint == old(saveCheckpoint)
    {
      editing := invalids;
    }

    /** resetToCheckpoint: editing becomes a copy of the checkpoint. */
    method ResetToCheckpoint()
      modifies this
      ensures editing == old(saveCheckpoint)
      ensures apiResponse == old(apiResponse) && saveCheckpoint == old(saveCheckpoint)
    {
      editing := saveCheckpoint;
    }

    /** resetToApiResponse: editing and the checkpoint become copies of the server answer. */
    method ResetToApiResponse()
      modifies this
      ensures editing == old(apiResponse) && saveCheckpoint == old(apiResponse)
      ensures apiResponse == old(apiResponse)
    {
      editing := apiResponse;
      saveCheckpoint := apiResponse;
    }
  }

  /**
   * Save a checkpoint, make any number of edits, then reset to the
   * checkpoint: the editing slot is the checkpoint again, and the server
   * answer has not been touched.
   */
  method CheckpointRoundTrip(store: Store, checkpoint: seq<Invalid>, edits: seq<seq<Invalid>>)
    modifies store
    ensures store.editing == checkpoint && store.saveCheckpoint == checkpoint
    ensures store.apiResponse == old(store.apiResponse)
  {
    store.SetSaveCheckpoint(checkpoint);
    for j := 0 to |edits|
      invariant store.saveCheckpoint == checkpoint
      invariant store.apiResponse == old(store.apiResponse)
    {
      store.SetEditing(edits[j]);
    }
    store.ResetToCheckpoint();
  }
}
