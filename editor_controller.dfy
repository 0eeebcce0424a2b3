/**
 * src/controllers/EditorController.tsx: the project controller. It keeps the
 * current job id and the status-polling timer, refuses every server request
 * while there is no job, and decides from the project status whether the
 * transcript and invalid segments can be loaded. The server calls themselves
 * and the timer are not part of this model; a timer is an opaque handle.
 */
module EditorController {
  import opened Common
  import TranscriptStore
  import InvalidStore

  /** `Object.values(ProjectStatus)`: the project statuses in declaration order. */
  const StatusOrder: seq<string> := [
    "error", "created", "uploaded", "transcript_start", "transcript_complete",
    "sent_analysis_start", "sent_analysis_end", "word_analysis_start",
    "word_analysis_end", "processed_invalid_segment", "trim_start", "completed"]

  const RequiredStatus: string := "processed_invalid_segment"

  /** `Array.prototype.indexOf` from position i: the first position at or after i holding `x`, or -1. */
  function IndexFrom(s: seq<string>, x: string, i: nat): (r: int)
    requires i <= |s|
    ensures r == -1 || i <= r < |s|
    ensures r >= 0 ==> s[r] == x && forall j :: i <= j < r ==> s[j] != x
    ensures r == -1 <==> forall j :: i <= j < |s| ==> s[j] != x
    decreases |s| - i
  {
    if i == |s| then -1
    else if s[i] == x then i
    else IndexFrom(s, x, i + 1)
  }

  /** `Array.prototype.indexOf`: the first position of `x`, or -1. */
  function IndexOf(s: seq<string>, x: string): (r: int)
    ensures -1 <= r < |s|
    ensures r >= 0 ==> s[r] == x && forall j :: 0 <= j < r ==> s[j] != x
    ensures r == -1 <==> x !in s
  {
    IndexFrom(s, x, 0)
  }

  /** isProjectReadyForData: the status comes at or after processed_invalid_segment. */
  predicate IsProjectReadyForData(status: string)
  {
    IndexOf(StatusOrder, status) >= IndexOf(StatusOrder, RequiredStatus)
  }

  lemma RequiredIndex()
    ensures IndexOf(StatusOrder, RequiredStatus) == 9
  {
    assert StatusOrder[9] == RequiredStatus;
  }

  /** `error` is listed first. */
  lemma ErrorIndex()
    ensures IndexOf(StatusOrder, "error") == 0
  {
    assert StatusOrder[0] == "error";
  }

  lemma TrimStartIndex()
    ensures IndexOf(StatusOrder, "trim_start") == 10
  {
    assert StatusOrder[10] == "trim_start";
  }

  lemma CompletedIndex()
    ensures IndexOf(StatusOrder, "completed") == 11
  {
    assert StatusOrder[11] == "completed";
  }

  /** Exactly the last three statuses are ready; `error`, although listed first, is not. */
  lemma ReadyStatuses(status: string)
    ensures IsProjectReadyForData(status) <==>
      status == "processed_invalid_segment" || status == "trim_start" || status == "completed"
    ensures !IsProjectReadyForData("error")
  {
    RequiredIndex();
    ErrorIndex();
    TrimStartIndex();
    CompletedIndex();
    var k := IndexOf(StatusOrder, status);
    if k == 9 {
      assert status == StatusOrder[9];
    } else if k == 10 {
      assert status == StatusOrder[10];
    } else if k == 11 {
      assert status == StatusOrder[11];
    }
  }

  /** A string that is not a status is never ready (indexOf gives -1). */
  lemma UnknownNotReady(status: string)
    requires status !in StatusOrder
    ensures !IsProjectReadyForData(status)
  {
    RequiredIndex();
  }

  /** Readiness is monotone along the status order. */
  lemma ReadyMonotone(i: nat, j: nat)
    requires i <= j < |StatusOrder|
    requires IsProjectReadyForData(StatusOrder[i])
    ensures IsProjectReadyForData(StatusOrder[j])
  {
    RequiredIndex();
    ReadyStatuses(StatusOrder[i]);
    ReadyStatuses(StatusOrder[j]);
    if j == 9 {
      assert StatusOrder[j] == "processed_invalid_segment";
    } else if j == 10 {
      assert StatusOrder[j] == "trim_start";
    } else {
      assert StatusOrder[j] == "completed";
    }
  }

  /** What one poll does with the status it received. */
  datatype PollAction = PollAction(loadData: bool, stopPolling: bool, error: Option<string>)

  /** The status handling of the polling callback. */
  function PollStep(status: string): (a: PollAction)
    ensures a.loadData <==> IsProjectReadyForData(status)
    ensures a.stopPolling <==> IsProjectReadyForData(status) || status == "error"
    ensures a.error.Some? <==> status == "error"
  {
    RequiredIndex();
    CompletedIndex();
    var ready := IsProjectReadyForData(status);
    if ready then PollAction(true, true, None)
    else if status == "completed" then PollAction(false, true, None)
    else if status == "error" then PollAction(false, true, Some("Project processing failed"))
    else PollAction(false, false, None)
  }

  /** The outcome of a request guarded by the job id: refused with null, or sent for this job. */
  datatype Request = Refused | Sent(jobId: string)

  class Controller {
    var jobId: Option<string>
    /** The status-polling timer handle, if polling. */
    var pollStatusInterval: Option<nat>
    /** The timer handles passed to clearInterval, in order. */
    var cleared: seq<nat>
    const transcriptStore: TranscriptStore.Store
    const invalidStore: InvalidStore.Store

    constructor (transcripts: TranscriptStore.Store, invalids: InvalidStore.Store)
      ensures jobId == None && pollStatusInterval == None && cleared == []
      ensures transcriptStore == transcripts && invalidStore == invalids
    {
      jobId := None;
      pollStatusInterval := None;
      cleared := [];
      transcriptStore := transcripts;
      invalidStore := invalids;
    }

    /** `this.jobId` is truthy: set and not the empty string. */
    predicate HasJob()
      reads this
    {
      jobId.Some? && jobId.value != ""
    }

    /** The guard shared by the four server requests: without a job, record `message` and refuse. */
    method RequireJob(message: string) returns (r: Request)
      modifies transcriptStore
      ensures !HasJob() ==> r == Refused && transcriptStore.error == Some(message)
      ensures HasJob() ==> r == Sent(jobId.value) && transcriptStore.error == old(transcriptStore.error)
      ensures transcriptStore.transcript == old(transcriptStore.transcript)
      ensures transcriptStore.isLoading == old(transcriptStore.isLoading)
    {
      if !(jobId.Some? && jobId.value != "") {
        transcriptStore.SetError(Some(message));
        return Refused;
      }
      return Sent(jobId.value);
    }

    /** With a job, the request is left in flight: the loading flag is set and the response is not modelled. */
    method RunProcessAll() returns (r: Request)
      modifies transcriptStore
      ensures !HasJob() ==> r == Refused && transcriptStore.error == Some("No active job to process")
      ensures HasJob() ==> r == Sent(jobId.value) && transcriptStore.error == old(transcriptStore.error)
      ensures transcriptStore.transcript == old(transcriptStore.transcript)
      ensures !HasJob() ==> transcriptStore.isLoading == old(transcriptStore.isLoading)
      ensures HasJob() ==> transcriptStore.isLoading
    {
      r := RequireJob("No active job to process");
      if r.Sent? {
        transcriptStore.SetLoading(true);
      }
    }

    method CheckStatus() returns (r: Request)
      modifies transcriptStore
      ensures !HasJob() ==> r == Refused && transcriptStore.error == Some("No active job to check status")
      ensures HasJob() ==> r == Sent(jobId.value) && transcriptStore.error == old(transcriptStore.error)
      ensures transcriptStore.transcript == old(transcriptStore.transcript)
      ensures transcriptStore.isLoading == old(transcriptStore.isLoading)
    {
      r := RequireJob("No active job to check status");
    }

    /** With a job, the request is left in flight: the loading flag is set and the response is not modelled. */
    method LoadTranscript() returns (r: Request)
      modifies transcriptStore
      ensures !HasJob() ==> r == Refused && transcriptStore.error == Some("No active job to load transcript")
      ensures HasJob() ==> r == Sent(jobId.value) && transcriptStore.error == old(transcriptStore.error)
      ensures transcriptStore.transcript == old(transcriptStore.transcript)
      ensures !HasJob() ==> transcriptStore.isLoading == old(transcriptStore.isLoading)
      ensures HasJob() ==> transcriptStore.isLoading
    {
      r := RequireJob("No active job to load transcript");
      if r.Sent? {
        transcriptStore.SetLoading(true);
      }
    }

    method LoadInvalidSegments() returns (r: Request)
      modifies transcriptStore
      ensures !HasJob() ==> r == Refused && transcriptStore.error == Some("No active job to load invalid segments")
      ensures HasJob() ==> r == Sent(jobId.value) && transcriptStore.error == old(transcriptStore.error)
      ensures transcriptStore.transcript == old(transcriptStore.transcript)
      ensures transcriptStore.isLoading == old(transcriptStore.isLoading)
    {
      r := RequireJob("No active job to load invalid segments");
    }

    /** stopStatusPolling: clear the timer if there is one; a second call does nothing. */
    method StopStatusPolling()
      modifies this
      ensures pollStatusInterval == None
      ensures old(pollStatusInterval).Some? ==> cleared == old(cleared) + [old(pollStatusInterval).value]
      ensures old(pollStatusInterval).None? ==> cleared == old(cleared)
      ensures jobId == old(jobId)
    {
      if pollStatusInterval.Some? {
        cleared := cleared + [pollStatusInterval.value];
        pollStatusInterval := None;
      }
    }

    method SetJobId(id: string)
      modifies this
      ensures jobId == Some(id)
      ensures pollStatusInterval == old(pollStatusInterval) && cleared == old(cleared)
    {
      jobId := Some(id);
    }

    method GetJobId() returns (id: Option<string>)
      ensures id == jobId
    {
      id := jobId;
    }

    /** reset: stop polling, forget the job, clear the transcript and its error, and reset the annotations. */
    method Reset()
      modifies this, transcriptStore, invalidStore
      ensures pollStatusInterval == None && jobId == None
      ensures old(pollStatusInterval).Some? ==> cleared == old(cleared) + [old(pollStatusInterval).value]
      ensures old(pollStatusInterval).None? ==> cleared == old(cleared)
      ensures transcriptStore.transcript == [] && transcriptStore.error == None
      ensures transcriptStore.isLoading == old(transcriptStore.isLoading)
      ensures invalidStore.editing == old(invalidStore.apiResponse)
      ensures invalidStore.saveCheckpoint == old(invalidStore.apiResponse)
      ensures invalidStore.apiResponse == old(invalidStore.apiResponse)
    {
      StopStatusPolling();
      jobId := None;
      transcriptStore.ClearTranscript();
      transcriptStore.SetError(None);
      invalidStore.ResetToApiResponse();
    }
  }

  /** setJobId then getJobId gives the id back. */
  method SetThenGet(c: Controller, id: string) returns (got: Option<string>)
    modifies c
    ensures got == Some(id)
  {
    c.SetJobId(id);
    got := c.GetJobId();
  }

  /** Stopping twice clears the timer once. */
  method StopTwice(c: Controller)
    modifies c
    ensures c.pollStatusInterval == None
    ensures old(c.pollStatusInterval).Some? ==> c.cleared == old(c.cleared) + [old(c.pollStatusInterval).value]
    ensures old(c.pollStatusInterval).None? ==> c.cleared == old(c.cleared)
  {
    c.StopStatusPolling();
    c.StopStatusPolling();
  }
}
