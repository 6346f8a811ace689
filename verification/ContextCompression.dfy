/** Rolling summaries of a conversation (zen_claw/agent/context_compression.py and
    `_build_history_with_compression` in loop.py). */
module ContextCompression {

  datatype Message = Message(role: string, content: string)

  datatype Compressor = Compressor(trigger: nat, keepRecent: nat, minNew: nat)

  datatype Plan = Plan(compress: bool, prefix: seq<Message>, recent: seq<Message>, upto: nat)

  function Cutoff(c: Compressor, total: nat): nat {
    if total > c.keepRecent then total - c.keepRecent else 0
  }

  function MakePlan(c: Compressor, messages: seq<Message>, upto: nat): Plan {
    var cutoff := Cutoff(c, |messages|);
    if |messages| <= c.trigger || cutoff <= upto || cutoff - upto < c.minNew then Plan(false, [], messages, upto)
    else Plan(true, messages[upto..cutoff], messages[cutoff..], cutoff)
  }

  /** `segments` is the history a run is judged by: the message ranges that were summarised. */
  datatype Session = Session(messages: seq<Message>, upto: nat, summary: string, segments: seq<(nat, nat)>)

  const NEW_SESSION := Session([], 0, "", [])

  /** The summariser's reply: an exception, or the stripped text. */
  datatype Reply = Failed | Summary(text: string)

  /** What the summariser is asked to work on: the messages to add, and the summary so far. */
  datatype Prompt = NoPrompt | Prompt(prefix: seq<Message>, previous: string)

  /** What is handed to the model: the plain session history, or a summary with recent messages. */
  datatype History = Plain | Compressed(summary: string, recent: seq<Message>)

  predicate Summarises(c: Compressor, s: Session, tokenTrigger: bool) {
    MakePlan(c, s.messages, s.upto).compress || (tokenTrigger && |s.messages| <= c.keepRecent)
  }

  /** The plan's prefix goes to the summariser, whether or not it is empty. */
  function PromptOf(c: Compressor, s: Session, tokenTrigger: bool): Prompt {
    if Summarises(c, s, tokenTrigger) then Prompt(MakePlan(c, s.messages, s.upto).prefix, s.summary) else NoPrompt
  }

  /** One pass of `_build_history_with_compression` on values. */
  function Build(c: Compressor, s: Session, tokenTrigger: bool, reply: Reply): (Session, History) {
    var plan := MakePlan(c, s.messages, s.upto);
    if !Summarises(c, s, tokenTrigger) || reply == Failed then (s, Plain)
    else if reply.text == "" then (s, Compressed(s.summary, plan.recent))
    else (s.(upto := plan.upto, summary := reply.text,
             segments := if plan.compress then s.segments + [(s.upto, plan.upto)] else s.segments),
          Compressed(reply.text, plan.recent))
  }

  /** The session object as the loop edits it. */
  class SessionState {
    var messages: seq<Message>
    var upto: nat
    var summary: string
    ghost var segments: seq<(nat, nat)>

    ghost function View(): Session
      reads this
    {
      Session(messages, upto, summary, segments)
    }

    method BuildHistory(c: Compressor, tokenTrigger: bool, reply: Reply) returns (prompt: Prompt, h: History)
      modifies this
      ensures (View(), h) == Build(c, old(View()), tokenTrigger, reply)
      ensures prompt == PromptOf(c, old(View()), tokenTrigger)
    {
      var plan := MakePlan(c, messages, upto);
      if !tokenTrigger && !plan.compress { return NoPrompt, Plain; }
      if tokenTrigger && !plan.compress && |messages| > c.keepRecent {
        var cutoff := Cutoff(c, |messages|);
        assert messages[..cutoff] + messages[cutoff..] == messages;
        plan := MakePlan(c, messages[..cutoff] + messages[cutoff..], upto);
        if !plan.compress { return NoPrompt, Plain; }
      }
      prompt := Prompt(plan.prefix, summary);
      if reply == Failed { return prompt, Plain; }
      if reply.text != "" {
        if plan.compress { segments := segments + [(upto, plan.upto)]; }
        summary, upto := reply.text, plan.upto;
      }
      return prompt, Compressed(summary, plan.recent);
    }
  }

  /** Enough has been said, and enough of it is old and not yet summarised. */
  predicate Due(c: Compressor, s: Session) {
    && |s.messages| > c.trigger
    && |s.messages| > s.upto + c.keepRecent && |s.messages| >= s.upto + c.keepRecent + c.minNew
  }

  /** What one pass does. It asks for a summary when one is due, or when the token budget calls for one and
      there is nothing old to add; it asks about exactly the messages between the last summary and the recent
      ones; and only a reply that says something moves the summary, to exactly there. */
  lemma BuildMeans(c: Compressor, s: Session, tokenTrigger: bool, reply: Reply)
    requires s.upto <= |s.messages|
    ensures var (after, h) := Build(c, s, tokenTrigger, reply); var prompt := PromptOf(c, s, tokenTrigger);
            var asks := Due(c, s) || (tokenTrigger && |s.messages| <= c.keepRecent);
            && (prompt == NoPrompt <==> !asks)
            && (Due(c, s) ==> prompt == Prompt(s.messages[s.upto..|s.messages| - c.keepRecent], s.summary))
            && (asks && !Due(c, s) ==> prompt == Prompt([], s.summary))
            && (h == Plain <==> !asks || reply == Failed)
            && after.messages == s.messages
            && after.upto == (if Due(c, s) && reply != Failed && reply.text != "" then |s.messages| - c.keepRecent else s.upto)
            && after.summary == (if asks && reply != Failed && reply.text != "" then reply.text else s.summary)
            && (h.Compressed? ==> h.summary == after.summary)
            && (h.Compressed? ==> h.recent == if Due(c, s) then s.messages[|s.messages| - c.keepRecent..] else s.messages)
  {
    if Due(c, s) { assert Cutoff(c, |s.messages|) == |s.messages| - c.keepRecent; }
  }

  // --- whole conversations ---

  datatype Event = Append(messages: seq<Message>) | Turn(tokenTrigger: bool, reply: Reply)

  function Step(c: Compressor, s: Session, e: Event): Session {
    match e
    case Append(messages) => s.(messages := s.messages + messages)
    case Turn(tokenTrigger, reply) => Build(c, s, tokenTrigger, reply).0
  }

  function Run(c: Compressor, events: seq<Event>): Session {
    if events == [] then NEW_SESSION else Step(c, Run(c, events[..|events| - 1]), events[|events| - 1])
  }

  /** Consecutive, disjoint, non-empty ranges that cover exactly [0, upto). */
  ghost predicate Tiles(segments: seq<(nat, nat)>, upto: nat) {
    && (segments == [] ==> upto == 0)
    && (segments != [] ==> segments[0].0 == 0 && segments[|segments| - 1].1 == upto)
    && (forall i :: 0 <= i < |segments| ==> segments[i].0 < segments[i].1)
    && (forall i :: 0 <= i < |segments| - 1 ==> segments[i].1 == segments[i + 1].0)
  }

  ghost predicate Sound(c: Compressor, s: Session) {
    && Tiles(s.segments, s.upto)
    && (s.upto > 0 ==> s.upto + c.keepRecent <= |s.messages| && s.summary != "")
    && (forall i :: 0 <= i < |s.segments| ==> s.segments[i].1 - s.segments[i].0 >= c.minNew)
  }

  lemma TilesAppend(segments: seq<(nat, nat)>, upto: nat, next: nat)
    requires Tiles(segments, upto) && upto < next
    ensures Tiles(segments + [(upto, next)], next)
  {
    var t := segments + [(upto, next)];
    forall i | 0 <= i < |t| - 1 ensures t[i].1 == t[i + 1].0 {
      if i < |segments| - 1 { assert t[i] == segments[i] && t[i + 1] == segments[i + 1]; }
    }
  }

  lemma StepKeepsSound(c: Compressor, s: Session, e: Event)
    requires Sound(c, s)
    ensures Sound(c, Step(c, s, e))
  {
    if e.Turn? {
      var plan := MakePlan(c, s.messages, s.upto);
      if plan.compress { TilesAppend(s.segments, s.upto, plan.upto); }
    }
  }

  /** Rolling summaries tile the conversation: in every run the summarised ranges are
      consecutive and cover exactly the first `upto` messages, each at least `minNew` long, and
      the last `keepRecent` messages are never summarised. What was summarised has a summary. */
  lemma {:induction false} SummariesTile(c: Compressor, events: seq<Event>)
    ensures Sound(c, Run(c, events))
  {
    if events != [] {
      SummariesTile(c, events[..|events| - 1]);
      StepKeepsSound(c, Run(c, events[..|events| - 1]), events[|events| - 1]);
    }
  }

  /** The summary and the recent messages together cover the conversation without gap or overlap: the
      session's summary stands for the first `upto` messages, if there are any, and the rest follow. */
  ghost predicate Seamless(s: Session, h: History) {
    h.Compressed? ==>
      && s.upto <= |s.messages| && h.recent == s.messages[s.upto..]
      && h.summary == s.summary && (s.upto > 0 ==> h.summary != "")
  }

  /** Exactly when a built history is seamless: always, except that an empty summary of a new
      segment drops that segment's messages. */
  lemma SeamlessIff(c: Compressor, s: Session, tokenTrigger: bool, reply: Reply)
    requires Sound(c, s)
    ensures var (after, h) := Build(c, s, tokenTrigger, reply);
            Seamless(after, h) <==> !(MakePlan(c, s.messages, s.upto).compress && reply == Summary(""))
  {
    var plan := MakePlan(c, s.messages, s.upto);
    if plan.compress {
      assert |s.messages[plan.upto..]| != |s.messages[s.upto..]|;
    } else {
      assert s.upto == 0 ==> s.messages[s.upto..] == s.messages;
    }
  }

  /** The token-budget trigger can cause a summariser call but never moves `upto`. */
  lemma TokenTriggerNeverMoves(c: Compressor, s: Session, reply: Reply)
    ensures Build(c, s, true, reply).0.upto == Build(c, s, false, reply).0.upto
    ensures Build(c, s, true, reply).0.segments == Build(c, s, false, reply).0.segments
    ensures Build(c, s, true, reply).0.upto != s.upto ==> MakePlan(c, s.messages, s.upto).compress
  {
  }
}
