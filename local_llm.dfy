/** The server's client for a self-hosted, OpenAI-compatible language
    model: the service settings and their defaults, the request built for a
    question, the fallback over three endpoint spellings, the context-length
    estimate from the model's name and the substring test it relies on.
    What each endpoint answers is an input; HTTP, JSON and timing are not
    modelled. Temperatures are reals standing for Go's `float64`. */
module LocalLlm {
  import opened Wrappers
  import opened Strings

  // ------------------------------------------------------ substring test

  /** `containsSubstring`: tries every start offset from 0 to
      `|s| - |sub|`. */
  method ScanSubstring(s: string, sub: string) returns (found: bool)
    ensures found <==> Contains(s, sub)
  {
    var i := 0;
    while i <= |s| - |sub|
      invariant 0 <= i
      invariant |sub| <= |s| ==> i <= |s| - |sub| + 1
      invariant forall j :: 0 <= j < i ==> !OccursAt(s, sub, j)
    {
      if s[i..i + |sub|] == sub {
        assert OccursAt(s, sub, i);
        return true;
      }
      i := i + 1;
    }
    assert forall j :: i <= j ==> !OccursAt(s, sub, j);
    return false;
  }

  /** `contains`: the equal, prefix and suffix shortcuts before the scan;
      together they decide exactly whether `sub` occurs in `s`. */
  method HasSubstring(s: string, sub: string) returns (found: bool)
    ensures found <==> Contains(s, sub)
  {
    if |s| < |sub| {
      assert forall j :: 0 <= j ==> !OccursAt(s, sub, j);
      return false;
    }
    if s == sub {
      assert OccursAt(s, sub, 0);
      return true;
    }
    if |s| == |sub| {
      assert forall j :: 0 < j ==> !OccursAt(s, sub, j);
      return false;
    }
    if s[..|sub|] == sub {
      assert OccursAt(s, sub, 0);
      return true;
    }
    if s[|s| - |sub|..] == sub {
      assert OccursAt(s, sub, |s| - |sub|);
      return true;
    }
    found := ScanSubstring(s, sub);
  }

  /** The empty string occurs in every string, and a string of the same
      length occurs only when it is equal. */
  lemma ContainsEdges(s: string, sub: string)
    ensures Contains(s, "")
    ensures |sub| == |s| ==> (Contains(s, sub) <==> s == sub)
  {
    assert OccursAt(s, "", 0);
    if |sub| == |s| && s == sub {
      assert OccursAt(s, sub, 0);
    }
  }

  // ------------------------------------------------------ context length

  const SMALL_CONTEXT := 2048
  const LARGE_CONTEXT := 4096

  /** A size tag such as "7b" or "7B" occurs in the model name. */
  predicate HasSize(model: string, digits: string) {
    Contains(model, digits + "b") || Contains(model, digits + "B")
  }

  /** `getLocalModelContextLength`: 7b, 13b and 70b models get 4096,
      30b models and all others 2048; the checks run in that order. */
  function ContextLength(model: string): (r: int)
    ensures r == SMALL_CONTEXT || r == LARGE_CONTEXT
    ensures r == LARGE_CONTEXT <==>
      HasSize(model, "7") || HasSize(model, "13") || (!HasSize(model, "30") && HasSize(model, "70"))
  {
    if HasSize(model, "7") then LARGE_CONTEXT
    else if HasSize(model, "13") then LARGE_CONTEXT
    else if HasSize(model, "30") then SMALL_CONTEXT
    else if HasSize(model, "70") then LARGE_CONTEXT
    else SMALL_CONTEXT
  }

  /** The estimate as the service computes it, through `contains`. */
  method ModelContextLength(model: string) returns (r: int)
    ensures r == ContextLength(model)
  {
    assert "7" + "b" == "7b" && "7" + "B" == "7B" && "13" + "b" == "13b" && "13" + "B" == "13B";
    assert "30" + "b" == "30b" && "30" + "B" == "30B" && "70" + "b" == "70b" && "70" + "B" == "70B";
    var lower := HasSubstring(model, "7b");
    var upper := HasSubstring(model, "7B");
    if lower || upper {
      return LARGE_CONTEXT;
    }
    lower := HasSubstring(model, "13b");
    upper := HasSubstring(model, "13B");
    if lower || upper {
      return LARGE_CONTEXT;
    }
    lower := HasSubstring(model, "30b");
    upper := HasSubstring(model, "30B");
    if lower || upper {
      return SMALL_CONTEXT;
    }
    lower := HasSubstring(model, "70b");
    upper := HasSubstring(model, "70B");
    if lower || upper {
      return LARGE_CONTEXT;
    }
    return SMALL_CONTEXT;
  }

  predicate IsDigits(d: string) {
    forall i :: 0 <= i < |d| ==> '0' <= d[i] <= '9'
  }

  /** A lower-cased window reads "<digits>b" exactly when the original
      read "<digits>b" or "<digits>B". */
  lemma LowerSizeWord(w: string, d: string)
    requires IsDigits(d) && |w| == |d| + 1
    ensures Lower(w) == d + "b" <==> w == d + "b" || w == d + "B"
  {
    var b := d + "b";
    var bb := d + "B";
    if Lower(w) == b {
      if w[|d|] == 'b' {
        assert w == b by {
          assert forall i :: 0 <= i < |d| ==> w[i] == b[i] by {
            assert forall i :: 0 <= i < |d| ==> LowerChar(w[i]) == d[i];
          }
        }
      } else {
        assert w == bb by {
          assert forall i :: 0 <= i < |d| ==> w[i] == bb[i] by {
            assert forall i :: 0 <= i < |d| ==> LowerChar(w[i]) == d[i];
          }
        }
      }
    }
    if w == b || w == bb {
      assert forall i :: 0 <= i < |w| ==> Lower(w)[i] == b[i];
    }
  }

  /** A size tag occurs in the lower-cased name exactly when it occurs in
      the name in either case. */
  lemma LowerHasSize(model: string, d: string)
    requires IsDigits(d)
    ensures Contains(Lower(model), d + "b") <==> HasSize(model, d)
  {
    var n := |d| + 1;
    forall i | 0 <= i && i + n <= |model|
      ensures OccursAt(Lower(model), d + "b", i) <==> OccursAt(model, d + "b", i) || OccursAt(model, d + "B", i)
    {
      LowerSlice(model, i, i + n);
      LowerSizeWord(model[i..i + n], d);
    }
  }

  /** Only lower-case letters survive lower-casing, so no "B" is found. */
  lemma LowerHasNoUpperB(model: string, d: string)
    ensures !Contains(Lower(model), d + "B")
  {
    forall i | 0 <= i && i + |d| + 1 <= |model|
      ensures !OccursAt(Lower(model), d + "B", i)
    {
      assert Lower(model)[i + |d|] != 'B';
      assert (d + "B")[|d|] == 'B';
    }
  }

  /** The estimate does not depend on the case of the model's name. */
  lemma ContextLengthIgnoresCase(model: string)
    ensures ContextLength(Lower(model)) == ContextLength(model)
  {
    var lower := Lower(model);
    LowerHasSize(model, "7");
    LowerHasSize(model, "13");
    LowerHasSize(model, "30");
    LowerHasSize(model, "70");
    LowerHasNoUpperB(model, "7");
    LowerHasNoUpperB(model, "13");
    LowerHasNoUpperB(model, "30");
    LowerHasNoUpperB(model, "70");
  }

  // ------------------------------------------------------------ settings

  const DEFAULT_BASE_URL := "http://localhost:8000"
  const DEFAULT_MODEL := "classius-sage-7b"
  const DEFAULT_MAX_TOKENS := 2048
  const DEFAULT_TEMPERATURE: real := 0.7

  /** A configuration value, as Go's type assertions see it. */
  datatype ConfigValue = ConfigString(s: string) | ConfigInt(i: int) | ConfigFloat(f: real) | ConfigOther

  datatype Service = Service(baseUrl: string, model: string, maxTokens: int, temperature: real, apiKey: string)

  /** A non-empty string setting, if the configuration has one. */
  function TextSetting(config: map<string, ConfigValue>, key: string): Option<string> {
    if key in config && config[key].ConfigString? && config[key].s != "" then Some(config[key].s) else None
  }

  /** `NewLocalLLMService`: each setting that is missing or of the wrong
      type takes its default; an empty URL or model name does too, while
      an integer 0 for the token limit is kept. */
  function NewService(config: map<string, ConfigValue>): (svc: Service)
    ensures svc.baseUrl != "" && svc.model != ""
    ensures svc.baseUrl == TextSetting(config, "base_url").GetOr(DEFAULT_BASE_URL)
    ensures svc.model == TextSetting(config, "model").GetOr(DEFAULT_MODEL)
    ensures "max_tokens" in config && config["max_tokens"].ConfigInt? ==> svc.maxTokens == config["max_tokens"].i
    ensures !("max_tokens" in config && config["max_tokens"].ConfigInt?) ==> svc.maxTokens == DEFAULT_MAX_TOKENS
    ensures "temperature" in config && config["temperature"].ConfigFloat? ==> svc.temperature == config["temperature"].f
    ensures !("temperature" in config && config["temperature"].ConfigFloat?) ==> svc.temperature == DEFAULT_TEMPERATURE
  {
    Service(
      TextSetting(config, "base_url").GetOr(DEFAULT_BASE_URL),
      TextSetting(config, "model").GetOr(DEFAULT_MODEL),
      if "max_tokens" in config && config["max_tokens"].ConfigInt? then config["max_tokens"].i else DEFAULT_MAX_TOKENS,
      if "temperature" in config && config["temperature"].ConfigFloat? then config["temperature"].f else DEFAULT_TEMPERATURE,
      if "api_key" in config && config["api_key"].ConfigString? then config["api_key"].s else "")
  }

  /** With no configuration at all the service talks to the local default
      server and model. */
  lemma EmptyConfig()
    ensures NewService(map[]) == Service(DEFAULT_BASE_URL, DEFAULT_MODEL, DEFAULT_MAX_TOKENS, DEFAULT_TEMPERATURE, "")
  {
  }

  // ------------------------------------------------------------- request

  datatype Question = Question(question: string, context: string, temperature: real, maxTokens: int)
  datatype Message = Message(role: string, content: string)
  datatype Request = Request(
    model: string,
    messages: seq<Message>,
    temperature: real,
    maxTokens: int,
    stream: bool,
    stop: seq<string>)

  const STOP_TOKENS := ["<|endoftext|>", "<|end|>", "</s>"]

  /** The request `Ask` sends: the context as the system message, the
      question as the user message, and the caller's temperature and token
      limit unless they are zero, in which case the service's own. */
  function BuildRequest(svc: Service, q: Question): (r: Request)
    ensures r.model == svc.model && !r.stream && r.stop == STOP_TOKENS
    ensures r.messages == [Message("system", q.context), Message("user", q.question)]
    ensures q.temperature != 0.0 ==> r.temperature == q.temperature
    ensures q.temperature == 0.0 ==> r.temperature == svc.temperature
    ensures q.maxTokens != 0 ==> r.maxTokens == q.maxTokens
    ensures q.maxTokens == 0 ==> r.maxTokens == svc.maxTokens
  {
    Request(
      svc.model,
      [Message("system", q.context), Message("user", q.question)],
      if q.temperature == 0.0 then svc.temperature else q.temperature,
      if q.maxTokens == 0 then svc.maxTokens else q.maxTokens,
      false,
      STOP_TOKENS)
  }

  /** A service built without settings never sends a zero temperature or
      token limit. */
  lemma DefaultsFillZeros(q: Question)
    ensures BuildRequest(NewService(map[]), q).temperature != 0.0
    ensures BuildRequest(NewService(map[]), q).maxTokens != 0
  {
    EmptyConfig();
  }

  /** The request headers: JSON, plus a bearer token when a key is set. */
  function Headers(svc: Service): (h: seq<(string, string)>)
    ensures |h| >= 1 && h[0] == ("Content-Type", "application/json")
    ensures |h| == 2 <==> svc.apiKey != ""
    ensures svc.apiKey != "" ==> h[1] == ("Authorization", "Bearer " + svc.apiKey)
  {
    [("Content-Type", "application/json")] + if svc.apiKey != "" then [("Authorization", "Bearer " + svc.apiKey)] else []
  }

  // ------------------------------------------------------- endpoint fallback

  /** The three endpoint spellings tried, in order. */
  function Endpoints(baseUrl: string): (e: seq<string>)
    ensures |e| == 3
  {
    [baseUrl + "/v1/chat/completions", baseUrl + "/chat/completions", baseUrl + "/generate"]
  }

  datatype LocalResponse = LocalResponse(model: string, choices: seq<string>, totalTokens: Option<int>, apiError: Option<string>)

  /** What one endpoint does with the request: the request cannot be
      built, sending fails, or a reply arrives whose body cannot be read,
      cannot be decoded, or decodes. */
  datatype Body = Unreadable | Malformed | Decoded(resp: LocalResponse)
  datatype Reply = Unbuildable | SendFailed | Received(status: int, body: Body)

  datatype AttemptError =
    | BuildError(endpoint: string)
    | SendError(endpoint: string)
    | StatusError(status: int, endpoint: string)
    | ReadError(endpoint: string)
    | DecodeError(endpoint: string)
    | ApiError(endpoint: string, message: string)
    | NoChoices(endpoint: string)

  datatype Answer = Answer(text: string, model: string, tokensUsed: int)
  datatype Attempt = Failure(error: AttemptError) | Success(answer: Answer)

  /** One endpoint's attempt: a non-200 status fails before the body is
      looked at, then unreadable or undecodable bodies, API errors and
      empty choices fail; otherwise the first choice is the answer. */
  function Try(endpoint: string, reply: Reply): (a: Attempt)
    ensures a.Success? <==>
      reply.Received? && reply.status == STATUS_OK && reply.body.Decoded? &&
      reply.body.resp.apiError.None? && |reply.body.resp.choices| > 0
    ensures a.Success? ==> a.answer.text == reply.body.resp.choices[0] && a.answer.model == reply.body.resp.model
    ensures a.Success? ==> a.answer.tokensUsed == reply.body.resp.totalTokens.GetOr(0)
    ensures a.Failure? ==> a.error.endpoint == endpoint
  {
    match reply
    case Unbuildable => Failure(BuildError(endpoint))
    case SendFailed => Failure(SendError(endpoint))
    case Received(status, body) =>
      if status != STATUS_OK then Failure(StatusError(status, endpoint))
      else match body
        case Unreadable => Failure(ReadError(endpoint))
        case Malformed => Failure(DecodeError(endpoint))
        case Decoded(resp) =>
          if resp.apiError.Some? then Failure(ApiError(endpoint, resp.apiError.value))
          else if |resp.choices| == 0 then Failure(NoChoices(endpoint))
          else Success(Answer(resp.choices[0], resp.model, resp.totalTokens.GetOr(0)))
  }

  const STATUS_OK := 200

  datatype AskResult = Answered(answer: Answer, endpoint: string) | AllFailed(last: AttemptError)

  /** The first endpoint that answers wins; if none does, the last
      endpoint's error is reported. */
  function FirstAnswer(endpoints: seq<string>, replies: seq<Reply>): AskResult
    requires |endpoints| == |replies| > 0
    decreases |replies|
  {
    match Try(endpoints[0], replies[0])
    case Success(a) => Answered(a, endpoints[0])
    case Failure(e) => if |replies| == 1 then AllFailed(e) else FirstAnswer(endpoints[1..], replies[1..])
  }

  predicate Succeeds(endpoints: seq<string>, replies: seq<Reply>, k: int)
    requires |endpoints| == |replies|
  {
    0 <= k < |replies| && Try(endpoints[k], replies[k]).Success?
  }

  /** When endpoint `k` is the first that succeeds, its answer is the
      result. */
  lemma {:induction false} FirstAnswerAnswered(endpoints: seq<string>, replies: seq<Reply>, k: int)
    requires |endpoints| == |replies| > 0
    requires Succeeds(endpoints, replies, k)
    requires forall j :: 0 <= j < k ==> !Succeeds(endpoints, replies, j)
    ensures FirstAnswer(endpoints, replies) == Answered(Try(endpoints[k], replies[k]).answer, endpoints[k])
    decreases |replies|
  {
    if k > 0 {
      assert !Succeeds(endpoints, replies, 0);
      var es, rs := endpoints[1..], replies[1..];
      assert Succeeds(es, rs, k - 1);
      forall j | 0 <= j < k - 1
        ensures !Succeeds(es, rs, j)
      {
        assert !Succeeds(endpoints, replies, j + 1);
      }
      FirstAnswerAnswered(es, rs, k - 1);
    }
  }

  /** The fallback fails exactly when every endpoint fails, and then
      reports the last endpoint's error. */
  lemma {:induction false} FirstAnswerFails(endpoints: seq<string>, replies: seq<Reply>)
    requires |endpoints| == |replies| > 0
    ensures FirstAnswer(endpoints, replies).AllFailed? <==>
      forall j :: 0 <= j < |replies| ==> !Succeeds(endpoints, replies, j)
    ensures FirstAnswer(endpoints, replies).AllFailed? ==>
      Try(endpoints[|replies| - 1], replies[|replies| - 1]).Failure? &&
      FirstAnswer(endpoints, replies).last == Try(endpoints[|replies| - 1], replies[|replies| - 1]).error
    decreases |replies|
  {
    var n := |replies|;
    if Try(endpoints[0], replies[0]).Success? {
      assert Succeeds(endpoints, replies, 0);
    } else if n > 1 {
      var es, rs := endpoints[1..], replies[1..];
      FirstAnswerFails(es, rs);
      assert FirstAnswer(endpoints, replies) == FirstAnswer(es, rs);
      assert !Succeeds(endpoints, replies, 0);
      if forall j :: 0 <= j < n - 1 ==> !Succeeds(es, rs, j) {
        forall j | 0 < j < n
          ensures !Succeeds(endpoints, replies, j)
        {
          assert !Succeeds(es, rs, j - 1);
        }
      } else {
        var j :| 0 <= j < n - 1 && Succeeds(es, rs, j);
        assert Succeeds(endpoints, replies, j + 1);
      }
    }
  }

  /** `Ask`'s loop over the endpoints, proved to compute `FirstAnswer`. */
  method Ask(svc: Service, replies: seq<Reply>) returns (r: AskResult)
    requires |replies| == 3
    ensures r == FirstAnswer(Endpoints(svc.baseUrl), replies)
  {
    var endpoints := Endpoints(svc.baseUrl);
    var last := BuildError(endpoints[0]);
    var i := 0;
    while i < |endpoints|
      invariant 0 <= i <= |endpoints|
      invariant i < |endpoints| ==> FirstAnswer(endpoints, replies) == FirstAnswer(endpoints[i..], replies[i..])
      invariant i == |endpoints| ==> FirstAnswer(endpoints, replies) == AllFailed(last)
    {
      var attempt := Try(endpoints[i], replies[i]);
      if attempt.Success? {
        return Answered(attempt.answer, endpoints[i]);
      }
      last := attempt.error;
      assert endpoints[i..][1..] == endpoints[i + 1..] && replies[i..][1..] == replies[i + 1..];
      i := i + 1;
    }
    r := AllFailed(last);
  }
}
