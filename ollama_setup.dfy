/** `llm_setup/setup_ollama.py`: shaping the replies of the Ollama server and
    of `ollama pull`, the availability rule, `setup_ollama_with_model`, and
    the fallback loop of `main` over the candidate vision models. The HTTP
    server, the subprocess and the model test are oracles. */
module OllamaSetup {
  import opened Wrappers
  import opened Text

  /** The reply to `GET /api/tags`: an exception (connection refused, a
      timeout, a body that is not JSON), or a status with the `models` list,
      each entry with its `name` field if it has one. A missing `models` key
      reads as the empty list. */
  datatype TagsReply = TagsFailed | Tags(status: int, models: seq<Option<string>>)

  /** How `subprocess.run(["ollama", "pull", name], timeout=600)` ends. */
  datatype PullOutcome = Exited(returnCode: int) | TimedOut | Raised(message: string)

  /** `[model["name"] for model in models]`, or None when an entry has no
      `name` (the `KeyError` the function catches). */
  function AllNames(models: seq<Option<string>>): (r: Option<seq<string>>)
    ensures r.Some? <==> forall i :: 0 <= i < |models| ==> models[i].Some?
    ensures r.Some? ==> |r.value| == |models| && forall i :: 0 <= i < |models| ==> r.value[i] == models[i].value
  {
    if models == [] then Some([])
    else if models[0].None? then None
    else match AllNames(models[1..]) {
      case None => None
      case Some(rest) => Some([models[0].value] + rest)
    }
  }

  /** `list_ollama_models`: the names in server order on status 200, and []
      on any other status or any exception. */
  function ListOllamaModels(reply: TagsReply): (r: seq<string>)
    ensures reply.Tags? && reply.status == 200 && (forall i :: 0 <= i < |reply.models| ==> reply.models[i].Some?) ==>
      |r| == |reply.models| && forall i :: 0 <= i < |r| ==> r[i] == reply.models[i].value
    ensures reply.TagsFailed? || reply.status != 200 ==> r == []
    ensures reply.Tags? && (exists i :: 0 <= i < |reply.models| && reply.models[i].None?) ==> r == []
  {
    if reply.TagsFailed? || reply.status != 200 then []
    else match AllNames(reply.models) {
      case None => []
      case Some(names) => names
    }
  }

  /** `pull_model`: success exactly when `ollama pull` exits with code 0;
      a timeout or any other exception is a failure. */
  function PullModel(outcome: PullOutcome): (ok: bool)
    ensures ok <==> outcome == Exited(0)
  {
    match outcome {
      case Exited(code) => code == 0
      case TimedOut => false
      case Raised(_) => false
    }
  }

  /** `any(model_name in model for model in available_models)`. */
  function ModelAvailable(modelName: string, available: seq<string>): (r: bool)
    ensures r <==> exists i :: 0 <= i < |available| && Contains(available[i], modelName)
  {
    if available == [] then false
    else Contains(available[0], modelName) || ModelAvailable(modelName, available[1..])
  }

  /** A model that is listed under its own name is available. */
  lemma ListedIsAvailable(modelName: string, available: seq<string>)
    requires modelName in available
    ensures ModelAvailable(modelName, available)
  {
    var i :| 0 <= i < |available| && available[i] == modelName;
    ContainsAt(available[i], modelName, 0);
  }

  /** The availability rule is a substring test, so a listed `bakllava:7b`
      makes `llava:7b` count as present, whether or not it is installed. */
  lemma BakllavaCountsAsLlava(available: seq<string>)
    requires "bakllava:7b" in available
    ensures ModelAvailable("llava:7b", available)
  {
    var i :| 0 <= i < |available| && available[i] == "bakllava:7b";
    assert available[i][3..11] == "llava:7b";
    ContainsAt(available[i], "llava:7b", 3);
  }

  /** What `setup_ollama_with_model` meets: whether the first `/api/tags`
      probe answers 200, whether `start_ollama` brings the service up, the
      reply to the listing, and the outcome of a pull. */
  datatype OllamaHost = OllamaHost(running: bool, startSucceeds: bool, tags: TagsReply, pull: PullOutcome)

  /** The actions of one setup, in order. */
  datatype SetupAction = StartAttempted | Listed | Pulled(modelName: string)

  /** The result `setup_ollama_with_model` returns, as a function. */
  function SetupSucceeds(modelName: string, host: OllamaHost): bool
  {
    if !host.running && !host.startSucceeds then false
    else ModelAvailable(modelName, ListOllamaModels(host.tags)) || PullModel(host.pull)
  }

  /** `setup_ollama_with_model`: make sure the service runs, list the
      installed models, and pull the model unless it is already available. */
  method SetupOllamaWithModel(modelName: string, host: OllamaHost) returns (ok: bool, actions: seq<SetupAction>)
    ensures ok == SetupSucceeds(modelName, host)
    // a service that is down and cannot be started ends the setup before any listing
    ensures StartAttempted in actions <==> !host.running
    ensures Listed in actions <==> host.running || host.startSucceeds
    ensures !host.running && !host.startSucceeds ==> !ok && actions == [StartAttempted]
    // an available model is not pulled; otherwise the result is the pull's
    ensures (host.running || host.startSucceeds) && ModelAvailable(modelName, ListOllamaModels(host.tags)) ==>
      ok && forall a :: a in actions ==> !a.Pulled?
    ensures (host.running || host.startSucceeds) && !ModelAvailable(modelName, ListOllamaModels(host.tags)) ==>
      ok == PullModel(host.pull) && actions[|actions| - 1] == Pulled(modelName)
    ensures forall a :: a in actions && a.Pulled? ==> a.modelName == modelName
  {
    actions := [];
    if !host.running {
      actions := actions + [StartAttempted];
      if !host.startSucceeds {
        return false, actions;
      }
    }
    var availableModels := ListOllamaModels(host.tags);
    actions := actions + [Listed];
    var modelAvailable := ModelAvailable(modelName, availableModels);
    if modelAvailable {
      return true, actions;
    }
    actions := actions + [Pulled(modelName)];
    ok := PullModel(host.pull);
  }

  /** The vision models `main` tries, in order. */
  const Candidates: seq<string> := ["llava:7b", "bakllava:7b", "llava:13b", "moondream"]

  /** Candidate `k` both sets up and passes `test_model`. */
  predicate Works(hosts: seq<OllamaHost>, testOk: seq<bool>, k: nat)
    requires |hosts| == |testOk| == |Candidates| && k < |Candidates|
  {
    SetupSucceeds(Candidates[k], hosts[k]) && testOk[k]
  }

  /** One pass of the loop in `main`: the candidate, whether its setup
      succeeded, and the result of its test when it was tested. */
  datatype Attempt = Attempt(model: string, setupOk: bool, test: Option<bool>)

  /** `main`: try the candidates in order, test a candidate only when its
      setup succeeded, and stop at the first that also passes its test.
      `hosts[k]` and `testOk[k]` are what the world answers while the
      `k`-th candidate is being tried. */
  method FindWorkingModel(hosts: seq<OllamaHost>, testOk: seq<bool>)
    returns (success: bool, usedModel: Option<string>, attempts: seq<Attempt>)
    requires |hosts| == |testOk| == |Candidates|
    ensures 0 < |attempts| <= |Candidates|
    ensures forall k :: 0 <= k < |attempts| ==>
      attempts[k].model == Candidates[k] &&
      attempts[k].setupOk == SetupSucceeds(Candidates[k], hosts[k]) &&
      (attempts[k].test.Some? <==> attempts[k].setupOk) &&
      (attempts[k].test.Some? ==> attempts[k].test.value == testOk[k])
    ensures success <==> exists k :: 0 <= k < |Candidates| && Works(hosts, testOk, k)
    ensures success ==>
      usedModel == Some(Candidates[|attempts| - 1]) && Works(hosts, testOk, |attempts| - 1) &&
      forall k :: 0 <= k < |attempts| - 1 ==> !Works(hosts, testOk, k)
    ensures !success ==> usedModel.None? && |attempts| == |Candidates|
  {
    success := false;
    usedModel := None;
    attempts := [];
    var i := 0;
    while i < |Candidates|
      invariant 0 <= i <= |Candidates|
      invariant |attempts| == i
      invariant forall k :: 0 <= k < i ==>
        attempts[k].model == Candidates[k] &&
        attempts[k].setupOk == SetupSucceeds(Candidates[k], hosts[k]) &&
        (attempts[k].test.Some? <==> attempts[k].setupOk) &&
        (attempts[k].test.Some? ==> attempts[k].test.value == testOk[k])
      invariant forall k :: 0 <= k < i ==> !Works(hosts, testOk, k)
      invariant !success && usedModel.None?
    {
      var model := Candidates[i];
      var ready, setupActions := SetupOllamaWithModel(model, hosts[i]);
      if ready {
        var passed := testOk[i];
        attempts := attempts + [Attempt(model, true, Some(passed))];
        if passed {
          usedModel := Some(model);
          success := true;
          assert Works(hosts, testOk, i);
          break;
        }
      } else {
        attempts := attempts + [Attempt(model, false, None)];
      }
      i := i + 1;
    }
  }
}
