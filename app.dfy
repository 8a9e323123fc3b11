/** The script's top level (app.py, lines 95-160): which branch runs for the
    given key, topic and buttons, and what each branch draws. Each rerun of
    the script is one call of Run; the external services are given by Env. */
module App {
  import opened Wrappers
  import opened Json
  import opened Prompts
  import opened Render
  import opened Batch
  import opened Archive

  /** The branch the script takes. */
  datatype Mode = TestRun | BatchRun | KeyWarning | Idle

  /** Lines 95, 99, 118 and 159. The key and topic are the text-input values;
      Python treats a string as true exactly when it is non-empty. */
  function SelectMode(apiKey: string, topic: string, testPressed: bool, batchPressed: bool): (m: Mode)
    // processing needs both inputs and a button; test wins over batch
    ensures m == TestRun <==> apiKey != "" && topic != "" && testPressed
    ensures m == BatchRun <==> apiKey != "" && topic != "" && !testPressed && batchPressed
    // the warning: a button without a key, whatever the topic
    ensures m == KeyWarning <==> apiKey == "" && (testPressed || batchPressed)
    // a key with an empty topic does nothing at all
    ensures apiKey != "" && topic == "" ==> m == Idle
  {
    if apiKey != "" && topic != "" then
      if testPressed then TestRun
      else if batchPressed then BatchRun
      else Idle
    else if (testPressed || batchPressed) && apiKey == "" then KeyWarning
    else Idle
  }

  /** What the services answer during one rerun: the drafter's parsed reply
      (None when the call or the parse raised), the image API's reply to the
      i-th render request, and the order in which the batch's renders finish. */
  datatype Env = Env(draftReply: Option<JsonValue>, imageReplies: nat -> ImageReply, order: seq<nat>)

  /** What ends up on the page. */
  datatype Screen =
    | Blank
    | MissingKey                   // line 160
    | PromptFailed                 // line 115
    | TestImage(image: Bytes)      // lines 110-111
    | TestFailed                   // line 113
    | BatchStalled                 // line 126 without an else: only the drafting status stays
    | BatchFailed                  // line 157
    | BatchDone(count: nat, archive: seq<Entry>, preview: seq<Bytes>)  // lines 150-155

  /** One rerun: the prompt count asked of the drafter (None: no request was
      sent), the prompts handed to the renderer in submission order, the
      progress reports of the batch loop, and the screen. */
  datatype Trace = Trace(drafted: Option<nat>, submitted: seq<JsonValue>, progress: seq<Progress>, screen: Screen)

  /** Number of preview columns (line 153). */
  const PREVIEW_COLUMNS: nat := 4

  method Run(apiKey: string, topic: string, testPressed: bool, batchPressed: bool, env: Env)
    returns (t: Trace)
    requires SelectMode(apiKey, topic, testPressed, batchPressed) == BatchRun ==>
      IsCompletionOrder(env.order, |Items(DraftPrompts(env.draftReply, BATCH_SIZE))|)
    // nothing is requested from any service unless a processing branch runs
    ensures t.drafted.None? <==> SelectMode(apiKey, topic, testPressed, batchPressed) in {Idle, KeyWarning}
    ensures t.drafted.None? ==> t.submitted == [] && t.progress == []
    ensures SelectMode(apiKey, topic, testPressed, batchPressed) == Idle ==> t.screen == Blank
    ensures SelectMode(apiKey, topic, testPressed, batchPressed) == KeyWarning ==> t.screen == MissingKey
    // test mode drafts one prompt and renders at most prompts[0]
    ensures SelectMode(apiKey, topic, testPressed, batchPressed) == TestRun ==>
      var prompts := Items(DraftPrompts(env.draftReply, 1));
      && t.drafted == Some(1)
      && t.progress == []
      && (prompts == [] ==> t.submitted == [] && t.screen == PromptFailed)
      && (prompts != [] ==>
           var o := RenderImage(prompts[0], env.imageReplies(0));
           && t.submitted == [prompts[0]]
           && t.screen == if Truthy(o) then TestImage(o.data) else TestFailed)
    // batch mode drafts BATCH_SIZE prompts and renders each of them once
    ensures SelectMode(apiKey, topic, testPressed, batchPressed) == BatchRun ==>
      var prompts := Items(DraftPrompts(env.draftReply, BATCH_SIZE));
      && t.drafted == Some(BATCH_SIZE)
      && t.submitted == prompts
      && |prompts| <= BATCH_SIZE
      && (prompts == [] ==> t.progress == [] && t.screen == BatchStalled)
      && |t.progress| == |prompts|
      && (forall k :: 0 <= k < |t.progress| ==> t.progress[k] == Progress(k + 1, BATCH_SIZE))
      // each reported count lies in 1..total, so completed/total is a valid
      // progress-bar fraction (never above 1)
      && (forall k :: 0 <= k < |t.progress| ==>
            1 <= t.progress[k].completed <= t.progress[k].total)
      // the total shown is BATCH_SIZE, not the number of prompts: a short
      // batch ends below BATCH_SIZE/BATCH_SIZE
      && (0 < |prompts| < BATCH_SIZE ==>
           && t.progress[|prompts| - 1] == Progress(|prompts|, BATCH_SIZE)
           && forall k :: 0 <= k < |t.progress| ==> t.progress[k].completed < t.progress[k].total)
      && (prompts != [] ==>
           var images := Successes(Completions(Submitted(prompts, env.imageReplies), env.order));
           && (images == [] ==> t.screen == BatchFailed)
           && (images != [] ==> t.screen.BatchDone?)
           && (t.screen.BatchDone? ==>
                && t.screen.count == |images| <= |prompts|
                && |t.screen.archive| == |images|
                && (forall i :: 0 <= i < |images| ==>
                      t.screen.archive[i] == Entry(EntryName(i), images[i]))
                && (forall i, j :: 0 <= i < j < |images| ==>
                      t.screen.archive[i].name != t.screen.archive[j].name)
                && t.screen.preview == images[..Min(PREVIEW_COLUMNS, |images|)]
                && multiset(images) == multiset(Successes(Submitted(prompts, env.imageReplies)))))
  {
    var mode := SelectMode(apiKey, topic, testPressed, batchPressed);
    match mode {
      case Idle =>
        t := Trace(None, [], [], Blank);
      case KeyWarning =>
        t := Trace(None, [], [], MissingKey);
      case TestRun =>
        var prompts := Items(DraftPrompts(env.draftReply, 1));
        if prompts != [] {
          var imgBytes := RenderImage(prompts[0], env.imageReplies(0));
          if Truthy(imgBytes) {
            t := Trace(Some(1), [prompts[0]], [], TestImage(imgBytes.data));
          } else {
            t := Trace(Some(1), [prompts[0]], [], TestFailed);
          }
        } else {
          t := Trace(Some(1), [], [], PromptFailed);
        }
      case BatchRun =>
        var prompts := Items(DraftPrompts(env.draftReply, BATCH_SIZE));
        if prompts != [] {
          var completedCount, imagesData, reports := RunBatch(prompts, env.imageReplies, env.order);
          if imagesData != [] {
            var archive := BuildArchive(imagesData);
            var preview := imagesData[..Min(PREVIEW_COLUMNS, |imagesData|)];
            t := Trace(Some(BATCH_SIZE), prompts, reports, BatchDone(|imagesData|, archive, preview));
          } else {
            t := Trace(Some(BATCH_SIZE), prompts, reports, BatchFailed);
          }
        } else {
          t := Trace(Some(BATCH_SIZE), prompts, [], BatchStalled);
        }
    }
  }

  /** Scenario: every render fails. Nothing is collected, so the batch ends
      with the error screen and no archive. */
  lemma AllRendersFailed(prompts: seq<JsonValue>, replies: nat -> ImageReply, order: seq<nat>)
    requires IsCompletionOrder(order, |prompts|)
    requires forall i :: 0 <= i < |prompts| ==> replies(i) == ReplyRaised
    ensures Successes(Completions(Submitted(prompts, replies), order)) == []
  {
    var c := Completions(Submitted(prompts, replies), order);
    assert forall k :: 0 <= k < |c| ==> !Truthy(c[k]);
    SuccessesEmptyIff(c);
  }

  /** Scenario: a prompt that is not a string is never rendered into an
      image, whatever the image API would have answered. */
  lemma NonStringPromptsYieldNothing(prompts: seq<JsonValue>, replies: nat -> ImageReply, order: seq<nat>)
    requires IsCompletionOrder(order, |prompts|)
    requires forall i :: 0 <= i < |prompts| ==> !prompts[i].JString?
    ensures Successes(Completions(Submitted(prompts, replies), order)) == []
  {
    var c := Completions(Submitted(prompts, replies), order);
    assert forall k :: 0 <= k < |c| ==> !Truthy(c[k]);
    SuccessesEmptyIff(c);
  }
}
