/**
 * `AIFeedbackGenerator`: the chat-completion client with a fixed number of
 * attempts. The network is an oracle `respond`: `respond(i)` is what the
 * POST of attempt `i` (counting from 0, as `range` does) comes back with.
 */
module Client {
  import opened Wrappers
  import opened Strings
  import opened Prompt

  const UnauthorizedMessage := "Error: Unauthorized access. Please check your API key."
  const ExhaustedMessage := "Feedback generation failed after multiple attempts."

  /** What one POST comes back with. `Answered` carries the HTTP status and
      `choices[0].message.content` of the JSON body, or `None` when the body
      has no such string. `TimedOut` is a kind of request error in httpx.
      `PostRaised` is any other exception out of building the client or the
      request (an invalid URL, a header that is not ASCII), which no `except`
      clause catches. */
  datatype Outcome =
    | Answered(status: int, content: Option<string>)
    | RequestFailed
    | TimedOut
    | PostRaised

  /** What `generate_feedback` gives its caller: a string, or an exception
      that escapes it (the POST itself raised, or the body of a 2xx answer
      could not be read). */
  datatype Reply = Returned(text: string) | Raised

  /** Whether an attempt's outcome sends the loop on to the next attempt.
      `raise_for_status` raises for every status outside 2xx, and of those
      only 401 ends the loop; request errors and timeouts are caught. */
  predicate Retries(o: Outcome) {
    match o
    case Answered(status, _) => !(200 <= status < 300) && status != 401
    case RequestFailed => true
    case TimedOut => true
    case PostRaised => false
  }

  /** One whole call: how many POSTs it made and, unless every attempt was
      used up, the outcome of the attempt that ended it. */
  datatype Run = Run(calls: nat, stoppedBy: Option<Outcome>)

  /** A run stops only on an outcome that does not retry. */
  predicate Settled(run: Run) {
    run.stoppedBy.Some? ==> !Retries(run.stoppedBy.value)
  }

  /** The string (or escaping exception) a call ends with. */
  function ReplyOf(run: Run): (reply: Reply)
    requires Settled(run)
    ensures run.stoppedBy.None? ==> reply == Returned(ExhaustedMessage)
    ensures run.stoppedBy.Some? ==> var o := run.stoppedBy.value;
      (o.Answered? && o.status == 401 ==> reply == Returned(UnauthorizedMessage)) &&
      (o.PostRaised? ==> reply == Raised) &&
      (o.Answered? && 200 <= o.status < 300 ==>
         (reply.Returned? <==> o.content.Some?) &&
         (o.content.Some? ==> reply == Returned(Strip(o.content.value))) &&
         (reply.Returned? ==> Bare(reply.text)))
  {
    match run.stoppedBy
    case None => Returned(ExhaustedMessage)
    case Some(o) =>
      if o.Answered? && 200 <= o.status < 300 then
        (match o.content
         case Some(c) => Returned(Strip(c))
         case None => Raised)
      else if o.PostRaised? then Raised
      else Returned(UnauthorizedMessage)
  }

  /** The loop from attempt `attempt` up to, not including, `retries`. */
  function Attempts(respond: nat -> Outcome, attempt: nat, retries: int): (r: Run)
    ensures attempt <= r.calls && (r.calls <= attempt || r.calls <= retries)
    ensures forall i :: attempt <= i < r.calls - 1 ==> Retries(respond(i))
    ensures r.stoppedBy.None? ==> r.calls == if attempt < retries then retries else attempt
    ensures r.stoppedBy.Some? ==>
      attempt < r.calls <= retries && r.stoppedBy.value == respond(r.calls - 1)
    ensures Settled(r)
    decreases retries - attempt
  {
    if retries <= attempt then Run(attempt, None)
    else if Retries(respond(attempt)) then Attempts(respond, attempt + 1, retries)
    else Run(attempt + 1, Some(respond(attempt)))
  }

  /** One call of `generate_feedback`: the loop over `range(retries)`. It
      makes at most `retries` POSTs, every POST before the last one retried,
      and a call that stops early stops on its last POST's outcome. */
  function Feedback(respond: nat -> Outcome, retries: int): (r: Run)
    ensures r.calls <= Max0(retries) && Settled(r)
    ensures forall i :: 0 <= i < r.calls - 1 ==> Retries(respond(i))
    ensures r.stoppedBy.Some? ==> 0 < r.calls && r.stoppedBy.value == respond(r.calls - 1)
  {
    Attempts(respond, 0, retries)
  }

  function Max0(n: int): nat {
    if n < 0 then 0 else n
  }

  /** An exception from the POST itself escapes on the first attempt, after one POST. */
  lemma PostRaisedEscapes(respond: nat -> Outcome, retries: int)
    requires 1 <= retries && respond(0) == PostRaised
    ensures Feedback(respond, retries) == Run(1, Some(PostRaised))
    ensures ReplyOf(Feedback(respond, retries)) == Raised
  {
  }

  /** A 401 on the first attempt ends the call with the fixed message after one POST. */
  lemma UnauthorizedOnFirstAttempt(respond: nat -> Outcome, retries: int)
    requires 1 <= retries && respond(0).Answered? && respond(0).status == 401
    ensures Feedback(respond, retries).calls == 1
    ensures ReplyOf(Feedback(respond, retries)) == Returned(UnauthorizedMessage)
  {
  }

  /** The first attempt that does not retry ends the call; no POST follows it. */
  lemma {:induction false} FirstStopEnds(respond: nat -> Outcome, attempt: nat, retries: int, k: nat)
    requires attempt <= k < retries && !Retries(respond(k))
    requires forall i :: attempt <= i < k ==> Retries(respond(i))
    ensures Attempts(respond, attempt, retries) == Run(k + 1, Some(respond(k)))
    decreases k - attempt
  {
    if attempt < k {
      FirstStopEnds(respond, attempt + 1, retries, k);
    }
  }

  /** A successful answer after `k` retried attempts returns its content,
      stripped, after exactly `k + 1` POSTs. */
  lemma SuccessReturnsStrippedContent(respond: nat -> Outcome, retries: int, k: nat, status: int, content: string)
    requires k < retries && 200 <= status < 300 && respond(k) == Answered(status, Some(content))
    requires forall i :: 0 <= i < k ==> Retries(respond(i))
    ensures Feedback(respond, retries).calls == k + 1
    ensures ReplyOf(Feedback(respond, retries)) == Returned(Strip(content)) && Bare(Strip(content))
  {
    FirstStopEnds(respond, 0, retries, k);
  }

  /** Another status, a request error or a timeout on the first attempt costs
      one POST and one attempt; the rest of the call is the loop over the
      later outcomes with one attempt fewer. */
  lemma RetryUsesOneAttempt(respond: nat -> Outcome, retries: int)
    requires 1 <= retries
    requires respond(0).RequestFailed? || respond(0).TimedOut? ||
      (respond(0).Answered? && !(200 <= respond(0).status < 300) && respond(0).status != 401)
    ensures var later := Feedback((i: nat) => respond(i + 1), retries - 1);
      Feedback(respond, retries) == later.(calls := later.calls + 1)
  {
    ShiftAttempts(respond, (i: nat) => respond(i + 1), 0, retries);
  }

  lemma {:induction false} ShiftAttempts(respond: nat -> Outcome, shifted: nat -> Outcome, attempt: nat, retries: int)
    requires forall i: nat :: shifted(i) == respond(i + 1)
    ensures var later := Attempts(shifted, attempt, retries - 1);
      Attempts(respond, attempt + 1, retries) == later.(calls := later.calls + 1)
    decreases retries - attempt
  {
    assert shifted(attempt) == respond(attempt + 1);
    if attempt + 1 < retries && Retries(respond(attempt + 1)) {
      ShiftAttempts(respond, shifted, attempt + 1, retries);
    }
  }

  /** The loop runs out of attempts exactly when every attempt from `attempt` on retried. */
  lemma {:induction false} ExhaustedWhenAllRetried(respond: nat -> Outcome, attempt: nat, retries: int)
    ensures Attempts(respond, attempt, retries).stoppedBy.None? <==>
      forall i :: attempt <= i < retries ==> Retries(respond(i))
    decreases retries - attempt
  {
    if attempt < retries && Retries(respond(attempt)) {
      ExhaustedWhenAllRetried(respond, attempt + 1, retries);
    }
  }

  /** The call runs out of attempts exactly when every attempt retried; it then
      made `retries` POSTs (none when `retries <= 0`) and returns the fixed
      message. It never makes more than `retries` POSTs. */
  lemma ExhaustedIffAllRetried(respond: nat -> Outcome, retries: int)
    ensures var r := Feedback(respond, retries);
      (r.stoppedBy.None? <==> forall i :: 0 <= i < retries ==> Retries(respond(i))) &&
      (r.stoppedBy.None? ==> r.calls == Max0(retries) && ReplyOf(r) == Returned(ExhaustedMessage)) &&
      r.calls <= Max0(retries)
    ensures retries <= 0 ==> Feedback(respond, retries) == Run(0, None)
  {
    ExhaustedWhenAllRetried(respond, 0, retries);
  }

  /** Outcomes after the last POST are never looked at. */
  lemma {:induction false} LaterOutcomesUnused(respond: nat -> Outcome, other: nat -> Outcome, attempt: nat, retries: int)
    requires forall i :: attempt <= i < Attempts(respond, attempt, retries).calls ==> other(i) == respond(i)
    ensures Attempts(other, attempt, retries) == Attempts(respond, attempt, retries)
    decreases retries - attempt
  {
    if attempt < retries {
      assert other(attempt) == respond(attempt);
      if Retries(respond(attempt)) {
        LaterOutcomesUnused(respond, other, attempt + 1, retries);
      }
    }
  }

  /** A timeout, then a 200 whose content is " Hello. ": "Hello." after two POSTs. */
  lemma TimeoutThenHello(respond: nat -> Outcome, retries: int)
    requires 2 <= retries && respond(0) == TimedOut && respond(1) == Answered(200, Some(" Hello. "))
    ensures Feedback(respond, retries).calls == 2
    ensures ReplyOf(Feedback(respond, retries)) == Returned("Hello.")
  {
    assert " Hello. " == " " + "Hello." + " ";
    StripPadded(" ", "Hello.", " ");
    SuccessReturnsStrippedContent(respond, retries, 1, 200, " Hello. ");
  }

  datatype Message = Message(role: string, content: string)

  /** The JSON request body, before serialisation. */
  datatype Payload = Payload(model: string, messages: seq<Message>, maxTokens: nat)

  /** One POST as it leaves the client. */
  datatype Post = Post(url: string, headers: seq<(string, string)>, timeout: real, payload: Payload)

  /** The request body: the fixed system message, then the prompt as the user's message. */
  function PayloadFor(prompt: string): (p: Payload)
    ensures p.model == "gpt-4" && p.maxTokens == 350
    ensures |p.messages| == 2 && p.messages[0].role == "system"
    ensures p.messages[0].content == "You are an assistant for public health data summaries."
    ensures p.messages[|p.messages| - 1] == Message("user", prompt)
  {
    Payload("gpt-4",
            [Message("system", "You are an assistant for public health data summaries."),
             Message("user", prompt)],
            350)
  }

  function Repeat<T>(x: T, n: nat): (s: seq<T>)
    ensures |s| == n && forall i :: 0 <= i < n ==> s[i] == x
  {
    seq(n, _ => x)
  }

  /** The generator. Its fields are set once, by the constructor. */
  class FeedbackGenerator {
    const apiKey: string
    const endpoint: string
    const timeout: real
    const retries: int
    const headers: seq<(string, string)>

    constructor (apiKey: string, endpoint: string, timeout: real, retries: int)
      ensures this.apiKey == apiKey && this.endpoint == endpoint
      ensures this.timeout == timeout && this.retries == retries
      ensures headers == [("Content-Type", "application/json"), ("Authorization", "Bearer " + apiKey)]
    {
      this.apiKey := apiKey;
      this.endpoint := endpoint;
      this.timeout := timeout;
      this.retries := retries;
      headers := [("Content-Type", "application/json"), ("Authorization", "Bearer " + apiKey)];
    }

    /** The POST every attempt of one `generate_feedback` call sends. */
    function PostFor(guidelines: map<string, string>, stateName: string, year: int,
                     maxFluoride: string, avgFluoride: string, cwsName: string): (p: Post)
      ensures p.url == endpoint && p.headers == headers && p.timeout == timeout
      ensures var m := p.payload.messages; var info := AdditionalInfo(guidelines, stateName);
        m != [] && m[|m| - 1].content == FeedbackPrompt(cwsName, stateName, year, maxFluoride, avgFluoride, info) &&
        |info| <= |m[|m| - 1].content| && m[|m| - 1].content[|m[|m| - 1].content| - |info|..] == info
    {
      var info := AdditionalInfo(guidelines, stateName);
      Post(endpoint, headers, timeout,
           PayloadFor(FeedbackPrompt(cwsName, stateName, year, maxFluoride, avgFluoride, info)))
    }

    /** `generate_feedback`: returns the reply and the POSTs it sent, in order. */
    method GenerateFeedback(guidelines: map<string, string>, stateName: string, year: int,
                            maxFluoride: string, avgFluoride: string, cwsName: string,
                            respond: nat -> Outcome)
      returns (reply: Reply, posts: seq<Post>)
      ensures reply == ReplyOf(Feedback(respond, retries))
      ensures posts == Repeat(PostFor(guidelines, stateName, year, maxFluoride, avgFluoride, cwsName),
                              Feedback(respond, retries).calls)
    {
      var post := PostFor(guidelines, stateName, year, maxFluoride, avgFluoride, cwsName);
      posts := [];
      var attempt: nat := 0;
      while attempt < retries
        invariant attempt <= Max0(retries)
        invariant posts == Repeat(post, attempt)
        invariant Attempts(respond, attempt, retries) == Feedback(respond, retries)
      {
        posts := posts + [post];
        match respond(attempt) {
          case Answered(status, content) =>
            if 200 <= status < 300 {
              match content {
                case Some(c) =>
                  reply := Returned(Strip(c));
                case None =>
                  reply := Raised;
              }
              return;
            } else if status == 401 {
              reply := Returned(UnauthorizedMessage);
              return;
            }
          case RequestFailed =>
          case TimedOut =>
          case PostRaised =>
            reply := Raised;
            return;
        }
        attempt := attempt + 1;
      }
      reply := Returned(ExhaustedMessage);
    }
  }
}
