/** The backend's client of the AI service (backend/grpcClient.js): a
    health flag refreshed at most every 30 seconds, and calls that return
    fixed fallback data whenever the service is unavailable or fails. */
module GrpcClient {
  import opened Common
  import opened Recommendation

  const HealthCheckIntervalMs: int := 30000

  const ChatbotFallback: string := "I'm sorry, the AI service is currently unavailable. Please try again later."
  const IndexingFallback: string := "fallback: indexing skipped - AI service unavailable"
  const DeletionFallback: string := "fallback: deletion skipped - AI service unavailable"

  /** The module's state: the availability flag, whether a client object
      exists, and the time of the last probe. */
  datatype Health = Health(available: bool, hasClient: bool, lastCheck: int)

  /** The outcome of one remote call. */
  datatype Call<T> = Replied(value: T) | Threw

  /** checkAIServiceHealth at time `now`; `initOk` says whether creating a
      client would succeed and `probeOk` whether waitForReady would. */
  function Check(h: Health, now: int, initOk: bool, probeOk: bool): (r: (Health, bool))
    ensures r.1 == r.0.available
    ensures now - h.lastCheck < HealthCheckIntervalMs ==> r == (h, h.available)
    ensures now - h.lastCheck >= HealthCheckIntervalMs ==>
      r.0.lastCheck == now && r.0.hasClient == (h.hasClient || initOk)
      && (r.1 <==> (h.hasClient || initOk) && probeOk)
  {
    if now - h.lastCheck < HealthCheckIntervalMs then (h, h.available)
    else
      var h1 := h.(lastCheck := now);
      if !h.hasClient && !initOk then (h1.(available := false), false)
      else (h1.(hasClient := true, available := probeOk), probeOk)
  }

  /** callWithFallback: the new state and the value returned. */
  function Fallback<T>(h: Health, now: int, initOk: bool, probeOk: bool, call: Call<T>, fallback: T): (r: (Health, T))
    ensures !Check(h, now, initOk, probeOk).1 ==> r == (Check(h, now, initOk, probeOk).0, fallback)
    ensures Check(h, now, initOk, probeOk).1 && call.Replied? ==> r == (Check(h, now, initOk, probeOk).0, call.value)
    ensures Check(h, now, initOk, probeOk).1 && call.Threw? ==>
      r.1 == fallback && !r.0.available && r.0.lastCheck == Check(h, now, initOk, probeOk).0.lastCheck
  {
    var (h1, ok) := Check(h, now, initOk, probeOk);
    if !ok then (h1, fallback)
    else if call.Replied? then (h1, call.value)
    else (h1.(available := false), fallback)
  }

  /** Within 30 seconds of a probe no new probe happens: the cached flag is
      returned and the state is kept, whatever the service would say. */
  lemma {:induction false} ProbeThrottled(h: Health, now: int, initOk: bool, probeOk: bool,
                                          later: int, initOk2: bool, probeOk2: bool)
    requires now - h.lastCheck >= HealthCheckIntervalMs
    requires now <= later < now + HealthCheckIntervalMs
    ensures var h1 := Check(h, now, initOk, probeOk).0;
      Check(h1, later, initOk2, probeOk2) == (h1, h1.available)
  {
  }

  /** After a failed call, every call in the rest of the 30-second window
      returns the fallback without reaching the service. */
  lemma FailureHoldsUntilNextProbe<T>(h: Health, now: int, initOk: bool, probeOk: bool, fallback: T,
                                      later: int, initOk2: bool, probeOk2: bool, call2: Call<T>, fallback2: T)
    requires Check(h, now, initOk, probeOk).1
    requires later - Check(h, now, initOk, probeOk).0.lastCheck < HealthCheckIntervalMs
    ensures var h2 := Fallback(h, now, initOk, probeOk, Threw, fallback).0;
      Fallback(h2, later, initOk2, probeOk2, call2, fallback2) == (h2, fallback2)
  {
    var h2 := Fallback(h, now, initOk, probeOk, Threw, fallback).0;
    assert Check(h2, later, initOk2, probeOk2) == (h2, false);
  }

  /** The AI calls that return a ranking of document ids. */
  datatype IdRpc = UserRecommendations | RelatedProjects | SearchProjects

  /** `{ recommended_ids: [] }`, which extracts to no ids. */
  function NoIds(): (r: IdList)
    ensures forall isValid: string -> bool :: ExtractProjectIds(r, isValid) == []
  {
    Items([])
  }

  class AiClient {
    var available: bool
    var hasClient: bool
    var lastCheck: int

    function State(): Health
      reads this
    {
      Health(available, hasClient, lastCheck)
    }

    /** Module start: the flag is false, no probe has run, and one client
        creation is attempted. */
    constructor(initOk: bool)
      ensures State() == Health(false, initOk, 0)
    {
      available := false;
      hasClient := initOk;
      lastCheck := 0;
    }

    method CheckHealth(now: int, initOk: bool, probeOk: bool) returns (ok: bool)
      modifies this
      ensures (State(), ok) == Check(old(State()), now, initOk, probeOk)
    {
      if now - lastCheck < HealthCheckIntervalMs {
        return available;
      }
      lastCheck := now;
      if !hasClient && !initOk {
        available := false;
        return false;
      }
      hasClient := true;
      available := probeOk;
      ok := probeOk;
    }

    method CallWithFallback<T>(now: int, initOk: bool, probeOk: bool, call: Call<T>, fallback: T) returns (r: T)
      modifies this
      ensures (State(), r) == Fallback(old(State()), now, initOk, probeOk, call, fallback)
    {
      var ok := CheckHealth(now, initOk, probeOk);
      if !ok {
        return fallback;
      }
      if call.Replied? {
        return call.value;
      }
      available := false;
      r := fallback;
    }

    /** getUserRecommendations, getRelatedProjects and searchProjects. */
    method RankIds(rpc: IdRpc, now: int, initOk: bool, probeOk: bool, call: Call<IdList>) returns (ids: IdList)
      modifies this
      ensures (State(), ids) == Fallback(old(State()), now, initOk, probeOk, call, NoIds())
    {
      ids := CallWithFallback(now, initOk, probeOk, call, NoIds());
    }

    /** getChatbotResponse: the reply's text, or the apology. */
    method ChatbotResponse(now: int, initOk: bool, probeOk: bool, call: Call<string>) returns (text: string)
      modifies this
      ensures (State(), text) == Fallback(old(State()), now, initOk, probeOk, call, ChatbotFallback)
    {
      text := CallWithFallback(now, initOk, probeOk, call, ChatbotFallback);
    }

    /** triggerIndexing: `response.status || "success"`, or the skip note. */
    method TriggerIndexing(now: int, initOk: bool, probeOk: bool, call: Call<Option<string>>) returns (status: string)
      modifies this
      ensures var reply := if call.Threw? then Threw
        else Replied(if call.value.Some? && call.value.value != "" then call.value.value else "success");
        (State(), status) == Fallback(old(State()), now, initOk, probeOk, reply, IndexingFallback)
    {
      var reply := if call.Threw? then Threw
        else Replied(if call.value.Some? && call.value.value != "" then call.value.value else "success");
      status := CallWithFallback(now, initOk, probeOk, reply, IndexingFallback);
    }

    /** deleteProjectFromIndex: the reply's status, or the skip note. */
    method DeleteProjectFromIndex(now: int, initOk: bool, probeOk: bool, call: Call<string>) returns (status: string)
      modifies this
      ensures (State(), status) == Fallback(old(State()), now, initOk, probeOk, call, DeletionFallback)
    {
      status := CallWithFallback(now, initOk, probeOk, call, DeletionFallback);
    }
  }
}
