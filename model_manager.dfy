/** The Gemini model manager of the AI service
    (ai-service/core/model_manager.py): a cursor over a fixed list of six
    model names that moves forward whenever the current model fails.
    Whether creating, starting a chat on, or calling the model at a list
    position succeeds is given by oracles, one answer per position. */
module ModelManager {
  import opened Common

  const FallbackOrder: seq<string> := [
    "gemini-2.5-flash",
    "gemini-3-flash",
    "gemini-2.5-flash-lite",
    "gemini-flash-latest",
    "gemini-2.0-flash-lite",
    "gemini-2.0-flash"]

  const Models: nat := 6

  /** A constructed model: its name and the tools and system instruction
      attached to it. */
  datatype ModelConfig = ModelConfig(name: string, tools: seq<string>, instruction: Option<string>)

  predicate Truthy(s: Option<string>) { s.Some? && s.value != "" }

  /** _create_model: tools are attached only together with a system
      instruction; tools without one are dropped. */
  function CreateModel(name: string, tools: seq<string>, instruction: Option<string>): (m: ModelConfig)
    ensures m.name == name
    ensures |m.tools| > 0 <==> |tools| > 0 && Truthy(instruction)
    ensures |m.tools| > 0 ==> m.tools == tools
    ensures m.instruction == if Truthy(instruction) then instruction else None
  {
    if |tools| > 0 && Truthy(instruction) then ModelConfig(name, tools, instruction)
    else if Truthy(instruction) then ModelConfig(name, [], instruction)
    else ModelConfig(name, [], None)
  }

  /** The first position at or after `from` whose model can be created. */
  function FirstCreatable(from: nat, createOk: nat -> bool): (r: Option<nat>)
    decreases Models - from
    ensures r.Some? ==> (from <= r.value < Models && createOk(r.value)
      && forall j :: from <= j < r.value ==> !createOk(j))
    ensures r.None? <==> forall j :: from <= j < Models ==> !createOk(j)
  {
    if from >= Models then None
    else if createOk(from) then Some(from)
    else FirstCreatable(from + 1, createOk)
  }

  /** The positions lo, lo + 1, ..., hi - 1. */
  function Range(lo: nat, hi: nat): (r: seq<nat>)
    requires lo <= hi
    ensures |r| == hi - lo && forall i :: 0 <= i < |r| ==> r[i] == lo + i
  {
    seq(hi - lo, i requires 0 <= i < hi - lo => lo + i)
  }

  /** Where an attempt failed: building the model, starting the chat on it,
      or calling it. */
  datatype Failure = CreateFailed(at: nat) | StartFailed(at: nat) | CallFailed(at: nat)

  /** The model at a position answered, or the last failure was raised. */
  datatype Outcome = Answered(at: nat) | Raised(error: Failure)

  /** The result of a fallback walk: the outcome and the new cursor. */
  datatype Walked = Walked(outcome: Outcome, cursor: nat)

  /** The fallback loop of generate_content from position `j` on, with the
      cursor at `cur` and `last` the most recent failure. */
  function Walk(j: nat, cur: nat, last: Failure, createOk: nat -> bool, callOk: nat -> bool): (w: Walked)
    requires j <= Models
    decreases Models - j
  {
    if j == Models then Walked(Raised(last), cur)
    else if !createOk(j) then Walk(j + 1, cur, CreateFailed(j), createOk, callOk)
    else if callOk(j) then Walked(Answered(j), j)
    else Walk(j + 1, j, CallFailed(j), createOk, callOk)
  }

  /** Where a walk stopped: after the answering entry, or at the end of
      the list. */
  function Stop(o: Outcome): nat {
    if o.Answered? then o.at + 1 else Models
  }

  /** An answer comes from the first entry from `j` on whose model can be
      built and answers, and that entry becomes the cursor. */
  lemma {:induction false} WalkAnswered(j: nat, cur: nat, last: Failure, createOk: nat -> bool, callOk: nat -> bool)
    requires j <= Models
    decreases Models - j
    ensures var w := Walk(j, cur, last, createOk, callOk);
      w.outcome.Answered? ==>
        j <= w.outcome.at < Models && w.cursor == w.outcome.at
        && createOk(w.outcome.at) && callOk(w.outcome.at)
        && forall i :: j <= i < w.outcome.at ==> !(createOk(i) && callOk(i))
  {
    if j < Models {
      if !createOk(j) {
        WalkAnswered(j + 1, cur, CreateFailed(j), createOk, callOk);
      } else if !callOk(j) {
        WalkAnswered(j + 1, j, CallFailed(j), createOk, callOk);
      }
    }
  }

  /** If nothing answers, every entry from `j` on failed, the last entry's
      failure is raised (or `last` when no entry was left), and the cursor
      never moves back: it rests on the last entry that could be built, or
      stays where it was. */
  lemma {:induction false} WalkRaised(j: nat, cur: nat, last: Failure, createOk: nat -> bool, callOk: nat -> bool)
    requires j <= Models && cur < j
    decreases Models - j
    ensures var w := Walk(j, cur, last, createOk, callOk);
      w.outcome.Raised? ==>
        (forall i :: j <= i < Models ==> !(createOk(i) && callOk(i)))
        && (j < Models ==> w.outcome.error.at == Models - 1)
        && (j == Models ==> w.outcome.error == last)
        && (w.cursor == cur || (j <= w.cursor < Models && createOk(w.cursor)))
        && (forall i :: j <= i < Models && w.cursor < i ==> !createOk(i))
  {
    if j < Models {
      if !createOk(j) {
        WalkRaised(j + 1, cur, CreateFailed(j), createOk, callOk);
      } else if !callOk(j) {
        WalkRaised(j + 1, j, CallFailed(j), createOk, callOk);
      }
    }
  }

  /** generate_content as a whole: the current model first, then the walk
      over the entries after it. */
  function Attempt(cur: nat, createOk: nat -> bool, callOk: nat -> bool): (w: Walked)
    requires cur < Models
  {
    if callOk(cur) then Walked(Answered(cur), cur)
    else Walk(cur + 1, cur, CallFailed(cur), createOk, callOk)
  }

  /** When the current model answers nothing moves. Otherwise the answer
      comes from the first later entry that builds and answers, and if none
      does the failure raised is always the last entry's. The cursor never
      moves back and is never reset to the head of the list. */
  lemma AttemptFacts(cur: nat, createOk: nat -> bool, callOk: nat -> bool)
    requires cur < Models
    ensures var w := Attempt(cur, createOk, callOk);
      cur <= w.cursor < Models
      && (callOk(cur) ==> w == Walked(Answered(cur), cur))
      && (!callOk(cur) && w.outcome.Answered? ==>
            cur < w.outcome.at && w.cursor == w.outcome.at
            && forall i :: cur <= i < w.outcome.at ==> !(createOk(i) && callOk(i)))
      && (!callOk(cur) && w.outcome.Raised? ==>
            w.outcome.error.at == Models - 1
            && forall i :: cur + 1 <= i < Models ==> !(createOk(i) && callOk(i)))
  {
    if !callOk(cur) {
      WalkAnswered(cur + 1, cur, CallFailed(cur), createOk, callOk);
      WalkRaised(cur + 1, cur, CallFailed(cur), createOk, callOk);
    }
  }

  /** The chat wrapper's fallback loop: building the model moves the
      manager's cursor, starting the chat moves the chat, and only then is
      the message resent. */
  datatype ChatWalked = ChatWalked(outcome: Outcome, cursor: nat, chatAt: nat)

  function ChatWalk(j: nat, cur: nat, chatAt: nat, last: Failure,
                    createOk: nat -> bool, startOk: nat -> bool, sendOk: nat -> bool): (w: ChatWalked)
    requires j <= Models
    decreases Models - j
  {
    if j == Models then ChatWalked(Raised(last), cur, chatAt)
    else if !createOk(j) then ChatWalk(j + 1, cur, chatAt, CreateFailed(j), createOk, startOk, sendOk)
    else if !startOk(j) then ChatWalk(j + 1, j, chatAt, StartFailed(j), createOk, startOk, sendOk)
    else if sendOk(j) then ChatWalked(Answered(j), j, j)
    else ChatWalk(j + 1, j, j, CallFailed(j), createOk, startOk, sendOk)
  }

  /** A chat answer comes from the first entry whose model builds, whose
      chat starts and which answers; the manager's cursor and the chat both
      move to it. */
  lemma {:induction false} ChatWalkAnswered(j: nat, cur: nat, chatAt: nat, last: Failure,
                                            createOk: nat -> bool, startOk: nat -> bool, sendOk: nat -> bool)
    requires j <= Models
    decreases Models - j
    ensures var w := ChatWalk(j, cur, chatAt, last, createOk, startOk, sendOk);
      w.outcome.Answered? ==>
        j <= w.outcome.at < Models && w.cursor == w.outcome.at && w.chatAt == w.outcome.at
        && forall i :: j <= i < w.outcome.at ==> !(createOk(i) && startOk(i) && sendOk(i))
  {
    if j < Models {
      if !createOk(j) {
        ChatWalkAnswered(j + 1, cur, chatAt, CreateFailed(j), createOk, startOk, sendOk);
      } else if !startOk(j) {
        ChatWalkAnswered(j + 1, j, chatAt, StartFailed(j), createOk, startOk, sendOk);
      } else if !sendOk(j) {
        ChatWalkAnswered(j + 1, j, j, CallFailed(j), createOk, startOk, sendOk);
      }
    }
  }

  /** When no entry answers in the chat walk, the last entry's failure is
      raised, and the manager's cursor never moves back. */
  lemma {:induction false} ChatWalkRaised(j: nat, cur: nat, chatAt: nat, last: Failure,
                                          createOk: nat -> bool, startOk: nat -> bool, sendOk: nat -> bool)
    requires j <= Models && cur < j
    decreases Models - j
    ensures var w := ChatWalk(j, cur, chatAt, last, createOk, startOk, sendOk);
      w.outcome.Raised? ==>
        (forall i :: j <= i < Models ==> !(createOk(i) && startOk(i) && sendOk(i)))
        && (j < Models ==> w.outcome.error.at == Models - 1)
        && (j == Models ==> w.outcome.error == last)
        && cur <= w.cursor < Models
  {
    if j < Models {
      if !createOk(j) {
        ChatWalkRaised(j + 1, cur, chatAt, CreateFailed(j), createOk, startOk, sendOk);
      } else if !startOk(j) {
        ChatWalkRaised(j + 1, j, chatAt, StartFailed(j), createOk, startOk, sendOk);
      } else if !sendOk(j) {
        ChatWalkRaised(j + 1, j, j, CallFailed(j), createOk, startOk, sendOk);
      }
    }
  }

  class ModelManager {
    const tools: seq<string>
    const instruction: Option<string>
    var cursor: Option<nat>
    var model: Option<ModelConfig>

    /** The cursor names a list entry and the current model was built from
        that entry. */
    predicate Valid()
      reads this
    {
      cursor.Some? && cursor.value < Models && model == Some(CreateModel(FallbackOrder[cursor.value], tools, instruction))
    }

    /** The attribute assignments of __init__; _initialize_model follows. */
    constructor(tools: seq<string>, instruction: Option<string>)
      ensures this.tools == tools && this.instruction == instruction
      ensures cursor.None? && model.None?
    {
      this.tools := tools;
      this.instruction := instruction;
      cursor := None;
      model := None;
    }

    /** _initialize_model: the entries are tried in order and the first one
        whose model can be built becomes current; no content is generated.
        `ok` is false where the source raises RuntimeError. */
    method Initialize(createOk: nat -> bool) returns (ok: bool)
      modifies this
      ensures ok <==> FirstCreatable(0, createOk).Some?
      ensures ok ==> Valid() && cursor == FirstCreatable(0, createOk)
      ensures !ok ==> cursor == old(cursor) && model == old(model)
    {
      var i := 0;
      while i < Models
        invariant 0 <= i <= Models
        invariant FirstCreatable(0, createOk) == FirstCreatable(i, createOk)
        invariant cursor == old(cursor) && model == old(model)
      {
        if createOk(i) {
          model := Some(CreateModel(FallbackOrder[i], tools, instruction));
          cursor := Some(i);
          return true;
        }
        i := i + 1;
      }
      ok := false;
    }

    /** The two assignments of a fallback step: the model built from entry
        `j` becomes current, then the cursor names `j`. */
    method SwitchTo(j: nat)
      requires j < Models
      modifies this
      ensures Valid() && cursor == Some(j)
    {
      model := Some(CreateModel(FallbackOrder[j], tools, instruction));
      cursor := Some(j);
    }

    /** generate_content: `tried` lists the fallback positions in the order
        they were switched to (the "Switching to fallback model" log):
        every entry after the cursor, up to the one that answered. */
    method GenerateContent(createOk: nat -> bool, callOk: nat -> bool) returns (outcome: Outcome, tried: seq<nat>)
      requires Valid()
      modifies this
      ensures Valid()
      ensures var w := Attempt(old(cursor).value, createOk, callOk);
        outcome == w.outcome && cursor == Some(w.cursor)
      ensures !callOk(old(cursor).value) ==>
        old(cursor).value + 1 <= Stop(outcome) && tried == Range(old(cursor).value + 1, Stop(outcome))
      ensures callOk(old(cursor).value) ==> tried == []
    {
      var cur := cursor.value;
      if callOk(cur) {
        return Answered(cur), [];
      }
      var last := CallFailed(cur);
      var j := cur + 1;
      tried := [];
      ghost var w0 := Walk(cur + 1, cur, CallFailed(cur), createOk, callOk);
      while j < Models
        invariant cur < j <= Models
        invariant Valid()
        invariant var w := Walk(j, cursor.value, last, createOk, callOk);
          w0.outcome == w.outcome && w0.cursor == w.cursor
        invariant tried == Range(cur + 1, j)
        decreases Models - j
      {
        tried := tried + [j];
        assert tried == Range(cur + 1, j + 1);
        if !createOk(j) {
          last := CreateFailed(j);
          j := j + 1;
          continue;
        }
        SwitchTo(j);
        if callOk(j) {
          return Answered(j), tried;
        }
        last := CallFailed(j);
        j := j + 1;
      }
      outcome := Raised(last);
    }
  }

  /** ChatSessionWrapper: a chat started on the manager's model, with the
      manager shared. `chatAt` is the position of the model the chat runs
      on. */
  class ChatSession {
    const manager: ModelManager
    var chatAt: nat

    predicate Valid()
      reads this, manager
    {
      manager.Valid() && chatAt < Models
    }

    /** The chat starts on the manager's current model. */
    constructor(manager: ModelManager)
      requires manager.Valid()
      ensures this.manager == manager && Valid() && chatAt == manager.cursor.value
    {
      this.manager := manager;
      chatAt := manager.cursor.value;
    }

    /** send_message: the chat's own model first; the fallback starts after
        the manager's cursor, which other calls may have moved since the
        chat was started. */
    method SendMessage(firstOk: bool, createOk: nat -> bool, startOk: nat -> bool, sendOk: nat -> bool)
      returns (outcome: Outcome, tried: seq<nat>)
      requires Valid()
      modifies this, manager
      ensures Valid()
      ensures firstOk ==> (outcome == Answered(old(chatAt)) && tried == []
        && chatAt == old(chatAt) && manager.cursor == old(manager.cursor))
      ensures !firstOk ==> var cur := old(manager.cursor).value;
        var w := ChatWalk(cur + 1, cur, old(chatAt), CallFailed(old(chatAt)), createOk, startOk, sendOk);
        outcome == w.outcome && manager.cursor == Some(w.cursor) && chatAt == w.chatAt
          && cur + 1 <= Stop(outcome) && tried == Range(cur + 1, Stop(outcome))
    {
      if firstOk {
        return Answered(chatAt), [];
      }
      var cur := manager.cursor.value;
      var last := CallFailed(chatAt);
      var j := cur + 1;
      tried := [];
      ghost var w0 := ChatWalk(cur + 1, cur, chatAt, CallFailed(chatAt), createOk, startOk, sendOk);
      while j < Models
        invariant cur < j <= Models
        invariant Valid()
        invariant var w := ChatWalk(j, manager.cursor.value, chatAt, last, createOk, startOk, sendOk);
          w0.outcome == w.outcome && w0.cursor == w.cursor && w0.chatAt == w.chatAt
        invariant tried == Range(cur + 1, j)
        decreases Models - j
      {
        tried := tried + [j];
        assert tried == Range(cur + 1, j + 1);
        if !createOk(j) {
          last := CreateFailed(j);
          j := j + 1;
          continue;
        }
        manager.SwitchTo(j);
        if !startOk(j) {
          last := StartFailed(j);
          j := j + 1;
          continue;
        }
        chatAt := j;
        if sendOk(j) {
          return Answered(j), tried;
        }
        last := CallFailed(j);
        j := j + 1;
      }
      outcome := Raised(last);
    }
  }
}
