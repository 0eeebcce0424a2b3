/**
 * src/screens/AnalysisScreen.tsx: the analysis progress screen. Each polled
 * project status sets the progress percentage from a fixed table, moves the
 * highlighted processing step when the status names one, and ends polling
 * once the invalid segments are processed or the project is complete.
 */
module AnalysisScreen {
  import opened Common

  /** `statusToProgress`, as its entries in declaration order. */
  const StatusToProgress: seq<(string, nat)> := [
    ("created", 5), ("uploaded", 10), ("transcript_start", 20), ("transcript_complete", 35),
    ("sent_analysis_start", 45), ("sent_analysis_end", 60), ("word_analysis_start", 70),
    ("word_analysis_end", 80), ("processed_invalid_segment", 90), ("trim_start", 95), ("completed", 100)]

  datatype Step = Step(key: string, title: string, description: string)

  /** `processingSteps`. */
  const ProcessingSteps: seq<Step> := [
    Step("created", "Project Creation", "Initializing project resources"),
    Step("uploaded", "Upload Processing", "Verifying video file"),
    Step("transcript_start", "Transcription", "Converting speech to text"),
    Step("transcript_complete", "Transcript Analysis", "Processing transcript data"),
    Step("sent_analysis_start", "Sentence Analysis", "Processing language structures"),
    Step("sent_analysis_end", "Semantic Processing", "Analyzing contextual meaning"),
    Step("word_analysis_start", "Word Analysis", "Processing individual words"),
    Step("word_analysis_end", "Language Processing", "Finalizing text analysis"),
    Step("processed_invalid_segment", "Content Processing", "Identifying and processing segments"),
    Step("trim_start", "Video Processing", "Optimizing video content"),
    Step("completed", "Completion", "Analysis successfully completed")]

  /** The first table position at or after i whose key is `status`, if any. */
  function TableIndexFrom(status: string, i: nat): (r: Option<nat>)
    requires i <= |StatusToProgress|
    ensures r.Some? ==> i <= r.value < |StatusToProgress| && StatusToProgress[r.value].0 == status
    ensures r.Some? ==> forall j :: i <= j < r.value ==> StatusToProgress[j].0 != status
    ensures r.None? <==> forall k :: i <= k < |StatusToProgress| ==> StatusToProgress[k].0 != status
    decreases |StatusToProgress| - i
  {
    if i == |StatusToProgress| then None
    else if StatusToProgress[i].0 == status then Some(i)
    else TableIndexFrom(status, i + 1)
  }

  /** The position of `status` among the table's keys, if listed. */
  function TableIndex(status: string): (r: Option<nat>)
    ensures r.Some? ==> r.value < |StatusToProgress| && StatusToProgress[r.value].0 == status
    ensures r.Some? ==> forall j :: 0 <= j < r.value ==> StatusToProgress[j].0 != status
    ensures r.None? <==> forall k :: 0 <= k < |StatusToProgress| ==> StatusToProgress[k].0 != status
  {
    TableIndexFrom(status, 0)
  }

  /** `statusToProgress[status] || 0`: the table value of a listed status, otherwise 0. */
  function ProgressFor(status: string): (r: nat)
    ensures TableIndex(status).None? ==> r == 0
    ensures TableIndex(status).Some? ==> r == StatusToProgress[TableIndex(status).value].1
  {
    match TableIndex(status)
    case None => 0
    case Some(k) => StatusToProgress[k].1
  }

  function StepIndexFrom(status: string, i: nat): (r: Option<nat>)
    requires i <= |ProcessingSteps|
    ensures r.Some? ==> i <= r.value < |ProcessingSteps| && ProcessingSteps[r.value].key == status
    ensures r.None? <==> forall k :: i <= k < |ProcessingSteps| ==> ProcessingSteps[k].key != status
    decreases |ProcessingSteps| - i
  {
    if i == |ProcessingSteps| then None
    else if ProcessingSteps[i].key == status then Some(i)
    else StepIndexFrom(status, i + 1)
  }

  /** `processingSteps.findIndex(step => step.key === status)`. */
  function StepIndex(status: string): (r: Option<nat>)
    ensures r.Some? ==> r.value < |ProcessingSteps| && ProcessingSteps[r.value].key == status
    ensures r.None? <==> forall k :: 0 <= k < |ProcessingSteps| ==> ProcessingSteps[k].key != status
  {
    StepIndexFrom(status, 0)
  }

  /** The steps list exactly the table's statuses, in the table's order. */
  lemma StepsMatchTable()
    ensures |ProcessingSteps| == |StatusToProgress|
    ensures forall k :: 0 <= k < |ProcessingSteps| ==> ProcessingSteps[k].key == StatusToProgress[k].0
  {
  }

  /** Progress strictly increases along the table and stays within 1..100. */
  lemma ProgressIncreases()
    ensures forall i, j :: 0 <= i < j < |StatusToProgress| ==> StatusToProgress[i].1 < StatusToProgress[j].1
    ensures forall k :: 0 <= k < |StatusToProgress| ==> 0 < StatusToProgress[k].1 <= 100
  {
  }

  /** Each step's status maps to its own table value, and no listed status maps to 0. */
  lemma StepProgress(k: nat)
    requires k < |ProcessingSteps|
    ensures ProgressFor(ProcessingSteps[k].key) == StatusToProgress[k].1 > 0
  {
    StepsMatchTable();
    ProgressIncreases();
    TableKeyIndex(k);
  }

  /** Each table key is found at its own position: the keys are distinct. */
  lemma TableKeyIndex(k: nat)
    requires k < |StatusToProgress|
    ensures TableIndex(StatusToProgress[k].0) == Some(k)
  {
    var key := StatusToProgress[k].0;
    forall j | 0 <= j < k
      ensures StatusToProgress[j].0 != key
    {
      KeysDiffer(j, k);
    }
  }

  lemma KeysDiffer(j: nat, k: nat)
    requires j < k < |StatusToProgress|
    ensures StatusToProgress[j].0 != StatusToProgress[k].0
  {
    var a, b := StatusToProgress[j].0, StatusToProgress[k].0;
    assert |a| != |b| || a[0] != b[0];
  }

  /** How a shown step is drawn. */
  datatype StepState = Completed | Current | Pending

  function Min(a: nat, b: nat): nat
  {
    if a < b then a else b
  }

  /** `processingSteps.slice(0, currentStep + 2)` with each index classified against the current step. */
  function Shown(currentStep: nat): (r: seq<StepState>)
    ensures |r| == Min(currentStep + 2, |ProcessingSteps|)
    ensures forall i :: 0 <= i < |r| ==> (r[i] == Completed <==> i < currentStep)
    ensures forall i :: 0 <= i < |r| ==> (r[i] == Current <==> i == currentStep)
    ensures forall i :: 0 <= i < |r| ==> (r[i] == Pending <==> i == currentStep + 1)
  {
    var n := Min(currentStep + 2, |ProcessingSteps|);
    seq(n, i requires 0 <= i < n =>
      if i < currentStep then Completed else if i == currentStep then Current else Pending)
  }

  /** For a step on the list, exactly one shown step is current and at most one is pending. */
  lemma ShownHasOneCurrent(currentStep: nat)
    requires currentStep < |ProcessingSteps|
    ensures |Shown(currentStep)| > currentStep && Shown(currentStep)[currentStep] == Current
    ensures forall i, j :: 0 <= i < j < |Shown(currentStep)| ==> !(Shown(currentStep)[i] == Current && Shown(currentStep)[j] == Current)
    ensures forall i, j :: 0 <= i < j < |Shown(currentStep)| ==> !(Shown(currentStep)[i] == Pending && Shown(currentStep)[j] == Pending)
  {
  }

  /** `processingSteps[currentStep]?.label || "Initializing..."`. */
  function CurrentLabel(currentStep: nat): (r: string)
    ensures currentStep < |ProcessingSteps| ==> r == ProcessingSteps[currentStep].title
    ensures currentStep >= |ProcessingSteps| ==> r == "Initializing..."
  {
    if currentStep < |ProcessingSteps| then ProcessingSteps[currentStep].title else "Initializing..."
  }

  /** Polling ends with loading complete exactly at these two statuses. */
  predicate EndsPolling(status: string)
  {
    status == "processed_invalid_segment" || status == "completed"
  }

  class Screen {
    var projectStatus: string
    var progress: nat
    var currentStep: nat
    var loadingComplete: bool
    var error: Option<string>
    /** Whether the status interval is running. */
    var polling: bool

    /** The current step always names an entry of the step list. */
    predicate Valid()
      reads this
    {
      currentStep < |ProcessingSteps|
    }

    /** The initial state; polling runs when there is a job id. */
    constructor (jobId: Option<string>)
      ensures projectStatus == "created" && progress == 5 && currentStep == 0
      ensures !loadingComplete && error == None
      ensures polling <==> jobId.Some? && jobId.value != ""
      ensures Valid()
    {
      projectStatus := "created";
      progress := 5;
      currentStep := 0;
      loadingComplete := false;
      error := None;
      polling := jobId.Some? && jobId.value != "";
    }

    /** One poll that received `status`. */
    method HandleStatus(status: string)
      requires Valid()
      modifies this
      ensures Valid()
      ensures projectStatus == status && progress == ProgressFor(status)
      ensures StepIndex(status).Some? ==> currentStep == StepIndex(status).value
      ensures StepIndex(status).None? ==> currentStep == old(currentStep)
      ensures EndsPolling(status) ==> loadingComplete && !polling
      ensures !EndsPolling(status) ==> loadingComplete == old(loadingComplete) && polling == old(polling)
      ensures error == old(error)
    {
      projectStatus := status;
      progress := ProgressFor(status);
      var stepIndex := StepIndex(status);
      if stepIndex.Some? {
        currentStep := stepIndex.value;
      }
      if status == "processed_invalid_segment" || status == "completed" {
        loadingComplete := true;
        polling := false;
      }
    }

    /** A failed `processAll` at start-up records the error; polling goes on. */
    method HandleStartFailure()
      modifies this
      ensures error == Some("Failed to start processing. Please try again.") && polling == old(polling)
      ensures projectStatus == old(projectStatus) && progress == old(progress)
      ensures currentStep == old(currentStep) && loadingComplete == old(loadingComplete)
    {
      error := Some("Failed to start processing. Please try again.");
    }

    /** A failed poll records the error and stops polling. */
    method HandlePollFailure()
      modifies this
      ensures error == Some("Failed to fetch status. Please refresh the page.") && !polling
      ensures projectStatus == old(projectStatus) && progress == old(progress)
      ensures currentStep == old(currentStep) && loadingComplete == old(loadingComplete)
    {
      error := Some("Failed to fetch status. Please refresh the page.");
      polling := false;
    }
  }
}
