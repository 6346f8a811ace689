/** Hard truncation under a token budget (`_apply_max_tokens`, zen_claw/agent/context.py). */
module ContextTruncation {
  import opened JsonText

  datatype Block = TextBlock(length: nat) | ImageBlock | OtherBlock(length: nat)

  /** A string, a list of blocks, or anything else by the length of its text. */
  datatype Content = Text(text: string) | Blocks(items: seq<Block>) | Opaque(length: nat)

  datatype Message = Message(role: string, content: Content)

  function Quarter(n: nat): nat {
    if n / 4 > 1 then n / 4 else 1
  }

  function BlockTokens(b: Block): nat {
    match b
    case TextBlock(n) => Quarter(n)
    case ImageBlock => 85
    case OtherBlock(n) => Quarter(n)
  }

  function BlocksTokens(items: seq<Block>): nat {
    if items == [] then 0 else BlocksTokens(items[..|items| - 1]) + BlockTokens(items[|items| - 1])
  }

  function ContentTokens(c: Content): nat {
    match c
    case Text(text) => Quarter(|text|)
    case Blocks(items) => BlocksTokens(items)
    case Opaque(n) => Quarter(n)
  }

  /** Content plus 4 tokens of structure per message. */
  function Tokens(messages: seq<Message>): nat {
    if messages == [] then 0
    else Tokens(messages[..|messages| - 1]) + ContentTokens(messages[|messages| - 1].content) + 4
  }

  method EstimateContent(c: Content) returns (total: nat)
    ensures total == ContentTokens(c)
  {
    if c.Text? { return Quarter(|c.text|); }
    if c.Opaque? { return Quarter(c.length); }
    total := 0;
    for i := 0 to |c.items|
      invariant total == BlocksTokens(c.items[..i])
    {
      assert c.items[..i + 1][..i] == c.items[..i];
      total := total + BlockTokens(c.items[i]);
    }
    assert c.items[..|c.items|] == c.items;
  }

  method EstimateTokens(messages: seq<Message>) returns (total: nat)
    ensures total == Tokens(messages)
  {
    total := 0;
    for i := 0 to |messages|
      invariant total == Tokens(messages[..i])
    {
      assert messages[..i + 1][..i] == messages[..i];
      var content := EstimateContent(messages[i].content);
      total := total + content + 4;
    }
    assert messages[..|messages|] == messages;
  }

  /** A quarter of the characters, at least one token; 85 for an image; blocks and messages add up, and every
      message costs 4 more. */
  lemma TokensMean(a: seq<Message>, b: seq<Message>, m: Message, x: seq<Block>, y: seq<Block>, n: nat)
    ensures Tokens([]) == 0 && Tokens(a + b) == Tokens(a) + Tokens(b)
    ensures m.content.Text? ==> Tokens([m]) == 4 + (if |m.content.text| < 8 then 1 else |m.content.text| / 4)
    ensures m.content.Opaque? ==> Tokens([m]) == 4 + (if m.content.length < 8 then 1 else m.content.length / 4)
    ensures m.content.Blocks? ==> Tokens([m]) == 4 + BlocksTokens(m.content.items)
    ensures BlocksTokens([]) == 0 && BlocksTokens(x + y) == BlocksTokens(x) + BlocksTokens(y)
    ensures BlocksTokens([ImageBlock]) == 85
    ensures BlocksTokens([TextBlock(n)]) == BlocksTokens([OtherBlock(n)]) == (if n < 8 then 1 else n / 4)
  {
    TokensConcat(a, b);
    BlocksConcat(x, y);
    assert [m][..0] == [];
    assert [ImageBlock][..0] == [] && [TextBlock(n)][..0] == [] && [OtherBlock(n)][..0] == [];
  }

  lemma {:induction false} BlocksConcat(x: seq<Block>, y: seq<Block>)
    ensures BlocksTokens(x + y) == BlocksTokens(x) + BlocksTokens(y)
  {
    if y == [] {
      assert x + y == x;
    } else {
      BlocksConcat(x, y[..|y| - 1]);
      assert (x + y)[..|x + y| - 1] == x + y[..|y| - 1];
    }
  }

  const TRUNCATED := "\n\n[Context truncated due to max_tokens]"

  function DropNotice(dropped: nat): string {
    "\n\n[Context truncated due to max_tokens: dropped_history_messages=" + Digits(dropped) + "]"
  }

  function TargetChars(max: int, latest: Message): nat {
    var n := max * 4 - Tokens([latest]) * 4 - 64;
    if n > 256 then n else 256
  }

  function Framed(system: Message, history: seq<Message>, latest: Message): seq<Message> {
    [system] + history + [latest]
  }

  /** How many of the oldest history messages the loop drops. */
  function DropCount(system: Message, history: seq<Message>, latest: Message, max: int): (n: nat)
    ensures n <= |history|
  {
    if history == [] || Tokens(Framed(system, history, latest)) <= max then 0
    else 1 + DropCount(system, history[1..], latest, max)
  }

  function WithNotice(system: Message, dropped: nat): Message {
    if dropped > 0 && system.content.Text? then
      system.(content := Text(system.content.text + DropNotice(dropped)))
    else system
  }

  function Trimmed(system: Message, target: nat): Message
    requires system.content.Text? && |system.content.text| > target
  {
    system.(content := Text(system.content.text[..target] + TRUNCATED))
  }

  /** `_apply_max_tokens` on values. */
  function Truncate(messages: seq<Message>, max: int): seq<Message> {
    if Tokens(messages) <= max || |messages| < 2 then messages
    else
      var system, latest := messages[0], messages[|messages| - 1];
      var target := TargetChars(max, latest);
      if |messages| == 2 then
        if system.content.Text? && |system.content.text| > target then [Trimmed(system, target), latest] else messages
      else
        var history := messages[1..|messages| - 1];
        var dropped := DropCount(system, history, latest, max);
        var noted := WithNotice(system, dropped);
        var pruned := Framed(noted, history[dropped..], latest);
        if Tokens(pruned) <= max then pruned
        else if noted.content.Text? && |noted.content.text| > target then [Trimmed(noted, target), latest]
        else pruned
  }

  method ApplyMaxTokens(messages: seq<Message>, max: int) returns (out: seq<Message>)
    ensures out == Truncate(messages, max)
  {
    hide Tokens, TargetChars, DropNotice, Trimmed;
    var total := EstimateTokens(messages);
    if total <= max { return messages; }
    if |messages| <= 2 {
      if |messages| == 2 && messages[0].content.Text? {
        var target := TargetChars(max, messages[1]);
        if |messages[0].content.text| > target { return [Trimmed(messages[0], target), messages[1]]; }
      }
      return messages;
    }
    var system, latest := messages[0], messages[|messages| - 1];
    var history := messages[1..|messages| - 1];
    ghost var whole := history;
    var dropped := 0;
    total := EstimateTokens(Framed(system, history, latest));
    while history != [] && total > max
      invariant dropped <= |whole| && history == whole[dropped..] && total == Tokens(Framed(system, history, latest))
      invariant DropCount(system, whole, latest, max) == dropped + DropCount(system, history, latest, max)
      decreases |history|
    {
      history := history[1..];
      dropped := dropped + 1;
      total := EstimateTokens(Framed(system, history, latest));
    }
    if dropped > 0 && system.content.Text? {
      system := system.(content := Text(system.content.text + DropNotice(dropped)));
    }
    var pruned := Framed(system, history, latest);
    total := EstimateTokens(pruned);
    if total <= max { return pruned; }
    if system.content.Text? {
      var target := TargetChars(max, latest);
      if |system.content.text| > target {
        system := Trimmed(system, target);
        pruned := [system, latest];
      }
    }
    return pruned;
  }

  // --- shape ---

  /** The conversation as it stands before the last guardrail. */
  function Untrimmed(messages: seq<Message>, max: int): seq<Message> {
    if Tokens(messages) <= max || |messages| <= 2 then messages
    else
      var system, history, latest := messages[0], messages[1..|messages| - 1], messages[|messages| - 1];
      var dropped := DropCount(system, history, latest, max);
      Framed(WithNotice(system, dropped), history[dropped..], latest)
  }

  /** The last guardrail cuts the system text. */
  predicate Trims(messages: seq<Message>, max: int)
    requires |messages| >= 2
  {
    var u := Untrimmed(messages, max);
    && Tokens(u) > max && |u| >= 2
    && u[0].content.Text? && |u[0].content.text| > TargetChars(max, messages[|messages| - 1])
  }

  lemma TruncateShape(messages: seq<Message>, max: int)
    requires |messages| >= 2
    ensures |Untrimmed(messages, max)| >= 2
    ensures var latest := messages[|messages| - 1];
            Truncate(messages, max)
            == if Trims(messages, max) then [Trimmed(Untrimmed(messages, max)[0], TargetChars(max, latest)), latest]
               else Untrimmed(messages, max)
  {
    hide Tokens, TargetChars, DropNotice;
  }

  /** A system message after editing: as it was, with the drop notice, or the beginning of either with
      the truncation mark. */
  ghost predicate EditedFrom(before: Message, after: Message, dropped: nat, target: nat) {
    if !before.content.Text? then after == before
    else
      var noted := before.content.text
        + if dropped == 0 then ""
          else "\n\n[Context truncated due to max_tokens: dropped_history_messages=" + Digits(dropped) + "]";
      || after == before.(content := Text(noted))
      || (|noted| > target
          && after == before.(content := Text(noted[..target] + "\n\n[Context truncated due to max_tokens]")))
  }

  /** Starts with the (possibly edited) system message, ends with the latest one, and keeps a
      suffix of the history in between. */
  ghost predicate KeepsShape(messages: seq<Message>, out: seq<Message>, dropped: nat, target: nat)
    requires |messages| >= 2
  {
    && |out| >= 2 && EditedFrom(messages[0], out[0], dropped, target) && out[|out| - 1] == messages[|messages| - 1]
    && |out| <= |messages|
    && out[1..|out| - 1] == messages[|messages| - |out| + 1..|messages| - 1]
  }

  /** How many messages the loop drops from a conversation. */
  function Dropped(messages: seq<Message>, max: int): nat
    requires |messages| >= 2
  {
    if Tokens(messages) <= max || |messages| == 2 then 0
    else DropCount(messages[0], messages[1..|messages| - 1], messages[|messages| - 1], max)
  }

  lemma UntrimmedKeepsShape(messages: seq<Message>, max: int)
    requires |messages| >= 2
    ensures var u := Untrimmed(messages, max);
            && |u| >= 2 && u[0] == WithNotice(messages[0], Dropped(messages, max)) && |u| <= |messages|
            && u[|u| - 1] == messages[|messages| - 1]
            && u[1..|u| - 1] == messages[|messages| - |u| + 1..|messages| - 1]
  {
    hide Tokens, DropNotice;
    if Tokens(messages) > max && |messages| > 2 {
      var history := messages[1..|messages| - 1];
      var dropped := Dropped(messages, max);
      var u := Untrimmed(messages, max);
      assert u[1..|u| - 1] == history[dropped..];
      assert history[dropped..] == messages[1 + dropped..|messages| - 1];
    }
  }

  /** Whatever is cut, the output is the edited system message, a suffix of the history (none when the
      system text itself was cut), and the latest message. */
  lemma TruncateKeepsShape(messages: seq<Message>, max: int)
    requires |messages| >= 2
    ensures var spare := 4 * max - 4 * Tokens([messages[|messages| - 1]]) - 64;
            KeepsShape(messages, Truncate(messages, max), Dropped(messages, max), if spare > 256 then spare else 256)
    ensures Trims(messages, max) ==> |Truncate(messages, max)| == 2
  {
    var latest := messages[|messages| - 1];
    var spare := 4 * max - 4 * Tokens([latest]) - 64;
    assert TargetChars(max, latest) == if spare > 256 then spare else 256 by { hide Tokens; }
    TruncateShape(messages, max);
    UntrimmedKeepsShape(messages, max);
    if Trims(messages, max) { CutKeepsShape(messages, Dropped(messages, max), TargetChars(max, latest)); }
    hide *;
  }

  lemma CutKeepsShape(messages: seq<Message>, dropped: nat, target: nat)
    requires |messages| >= 2 && WithNotice(messages[0], dropped).content.Text?
    requires |WithNotice(messages[0], dropped).content.text| > target
    ensures KeepsShape(messages, [Trimmed(WithNotice(messages[0], dropped), target), messages[|messages| - 1]], dropped, target)
  {
    assert messages[0].content.text + "" == messages[0].content.text;
    assert DropNotice(dropped)
        == "\n\n[Context truncated due to max_tokens: dropped_history_messages=" + Digits(dropped) + "]";
    hide DropNotice;
    var out := [Trimmed(WithNotice(messages[0], dropped), target), messages[|messages| - 1]];
    assert out[1..1] == messages[|messages| - 1..|messages| - 1];
  }

  // --- the bound ---

  lemma {:induction false} TokensConcat(a: seq<Message>, b: seq<Message>)
    ensures Tokens(a + b) == Tokens(a) + Tokens(b)
  {
    if b == [] {
      assert a + b == a;
    } else {
      TokensConcat(a, b[..|b| - 1]);
      assert (a + b)[..|a + b| - 1] == a + b[..|b| - 1];
    }
  }

  lemma FramedTokens(system: Message, history: seq<Message>, latest: Message)
    ensures Tokens(Framed(system, history, latest)) ==
            ContentTokens(system.content) + 4 + Tokens(history) + Tokens([latest])
  {
    TokensConcat([system] + history, [latest]);
    TokensConcat([system], history);
    assert [system][..0] == [];
  }

  /** The loop stops at the first history suffix that fits, or with nothing left. */
  lemma {:induction false} DropCountStops(system: Message, history: seq<Message>, latest: Message, max: int)
    ensures var n := DropCount(system, history, latest, max);
            && (n == |history| || Tokens(Framed(system, history[n..], latest)) <= max)
            && (forall k :: 0 <= k < n ==> Tokens(Framed(system, history[k..], latest)) > max)
  {
    if history != [] && Tokens(Framed(system, history, latest)) > max {
      DropCountStops(system, history[1..], latest, max);
      var n := DropCount(system, history[1..], latest, max);
      assert history[1..][n..] == history[n + 1..];
      forall k | 0 <= k < n + 1 ensures Tokens(Framed(system, history[k..], latest)) > max {
        if k > 0 { assert history[1..][k - 1..] == history[k..]; } else { assert history[0..] == history; }
      }
    } else {
      assert history[0..] == history;
    }
  }

  /** What a cut system text and the overheads need at least. */
  const MINIMUM := 77

  function CeilQuarter(n: nat): nat {
    (n + 3) / 4
  }

  /** A cut system text fits exactly when the latest message leaves 77 tokens: 4 for each of the two
      messages' overhead are counted already, and the shortest cut is 256 characters and the mark. */
  lemma TrimmedFitsIff(system: Message, latest: Message, max: int)
    requires system.content.Text? && |system.content.text| > TargetChars(max, latest)
    ensures Tokens([Trimmed(system, TargetChars(max, latest)), latest]) <= max <==> max >= Tokens([latest]) + MINIMUM
  {
    var trimmed := Trimmed(system, TargetChars(max, latest));
    FramedTokens(trimmed, [], latest);
    assert Framed(trimmed, [], latest) == [trimmed, latest];
    assert |TRUNCATED| == 39;
    assert |trimmed.content.text| == TargetChars(max, latest) + |TRUNCATED|;
  }

  lemma ShortSystemFits(system: Message, latest: Message, max: int)
    requires system.content.Text? && max >= Tokens([latest]) + MINIMUM
    requires |system.content.text| <= TargetChars(max, latest)
    ensures Tokens(Framed(system, [], latest)) <= max
  {
    FramedTokens(system, [], latest);
  }

  /** What the drop notice adds to the system message. */
  function NoticeTokens(system: Message, dropped: nat): nat {
    if dropped > 0 && system.content.Text? then
      Quarter(|system.content.text| + |DropNotice(dropped)|) - Quarter(|system.content.text|)
    else 0
  }

  /** The conversation after dropping, before the notice is written into it. */
  function Remaining(messages: seq<Message>, max: int): seq<Message>
    requires |messages| >= 2
  {
    var history := messages[1..|messages| - 1];
    DroppedAtMost(messages, max);
    Framed(messages[0], history[Dropped(messages, max)..], messages[|messages| - 1])
  }

  lemma DroppedAtMost(messages: seq<Message>, max: int)
    requires |messages| >= 2
    ensures Dropped(messages, max) <= |messages| - 2
  {
    hide Tokens;
  }

  /** The system text, with the notice if there is one, is long enough to be cut. */
  predicate Cuttable(messages: seq<Message>, max: int)
    requires |messages| >= 2
  {
    var noted := WithNotice(messages[0], Dropped(messages, max));
    noted.content.Text? && |noted.content.text| > TargetChars(max, messages[|messages| - 1])
  }

  lemma UntrimmedIsNoted(messages: seq<Message>, max: int)
    requires |messages| >= 2
    ensures Dropped(messages, max) <= |messages| - 2
    ensures Untrimmed(messages, max) ==
            Framed(WithNotice(messages[0], Dropped(messages, max)),
                   messages[1..|messages| - 1][Dropped(messages, max)..], messages[|messages| - 1])
  {
    var system, history, latest := messages[0], messages[1..|messages| - 1], messages[|messages| - 1];
    DroppedAtMost(messages, max);
    hide Tokens, DropCount, DropNotice;
    assert Framed(system, history, latest) == messages;
    assert history[0..] == history;
  }

  lemma NoticeAdds(system: Message, dropped: nat)
    ensures ContentTokens(WithNotice(system, dropped).content) == ContentTokens(system.content) + NoticeTokens(system, dropped)
  {
    hide DropNotice, BlocksTokens;
  }

  lemma UntrimmedTokens(messages: seq<Message>, max: int)
    requires |messages| >= 2
    ensures Tokens(Untrimmed(messages, max))
            == Tokens(Remaining(messages, max)) + NoticeTokens(messages[0], Dropped(messages, max))
  {
    hide Tokens, ContentTokens, Framed, Untrimmed, Dropped, WithNotice, NoticeTokens;
    var system, latest, dropped := messages[0], messages[|messages| - 1], Dropped(messages, max);
    UntrimmedIsNoted(messages, max);
    var kept := messages[1..|messages| - 1][dropped..];
    NoticeAdds(system, dropped);
    FramedTokens(system, kept, latest);
    FramedTokens(WithNotice(system, dropped), kept, latest);
  }

  lemma TrimsWhenCuttable(messages: seq<Message>, max: int)
    requires |messages| >= 2
    ensures Trims(messages, max) <==> Tokens(Untrimmed(messages, max)) > max && Cuttable(messages, max)
  {
    hide Tokens, Untrimmed, Dropped, WithNotice, TargetChars;
    UntrimmedKeepsShape(messages, max);
  }

  /** Exactly when the output fits the budget: what remains after dropping fits with the notice written
      into it, or the system text is long enough to be cut and the latest message leaves 77 tokens. */
  lemma TruncateFitsIff(messages: seq<Message>, max: int)
    requires |messages| >= 2
    ensures Tokens(Truncate(messages, max)) <= max <==>
            || Tokens(Remaining(messages, max)) + NoticeTokens(messages[0], Dropped(messages, max)) <= max
            || (Cuttable(messages, max) && max >= Tokens([messages[|messages| - 1]]) + MINIMUM)
  {
    TruncateShape(messages, max);
    UntrimmedTokens(messages, max);
    TrimsWhenCuttable(messages, max);
    if Trims(messages, max) {
      TrimmedFitsIff(Untrimmed(messages, max)[0], messages[|messages| - 1], max);
    }
    hide Tokens, TargetChars, Untrimmed, Truncate, Trimmed, NoticeTokens, Remaining, Cuttable;
  }

  /** Above the threshold a cut always fits, so what overruns is the notice on a short system text: the
      conversation overruns if and only if the text is left alone and the notice does not fit. */
  lemma NoticeOverrunIff(messages: seq<Message>, max: int)
    requires |messages| >= 2 && messages[0].content.Text? && max >= Tokens([messages[|messages| - 1]]) + MINIMUM
    ensures Tokens(Truncate(messages, max)) > max <==>
            && |WithNotice(messages[0], Dropped(messages, max)).content.text| <= TargetChars(max, messages[|messages| - 1])
            && Tokens(Remaining(messages, max)) + NoticeTokens(messages[0], Dropped(messages, max)) > max
  {
    TruncateFitsIff(messages, max);
    hide Tokens, TargetChars, Truncate, Remaining, NoticeTokens, Dropped, DropNotice;
  }

  /** Below the threshold a cut never fits, so the output fits if and only if nothing had to be cut: what
      remains after dropping fits with the notice. */
  lemma BelowMinimumFitsIff(messages: seq<Message>, max: int)
    requires |messages| >= 2 && max < Tokens([messages[|messages| - 1]]) + MINIMUM
    ensures Tokens(Truncate(messages, max)) <= max <==>
            Tokens(Remaining(messages, max)) + NoticeTokens(messages[0], Dropped(messages, max)) <= max
  {
    TruncateFitsIff(messages, max);
    hide Tokens, Truncate, Remaining, NoticeTokens, Dropped, Cuttable;
  }

  lemma NothingDropped(messages: seq<Message>, max: int)
    requires |messages| >= 2 && Dropped(messages, max) == 0
    ensures Remaining(messages, max) == messages
  {
    hide Tokens, Dropped;
    assert messages[1..|messages| - 1][0..] == messages[1..|messages| - 1];
  }

  /** Which suffix of the history remains. */
  lemma DroppedStops(messages: seq<Message>, max: int)
    requires |messages| >= 2
    ensures Dropped(messages, max) <= |messages| - 2
    ensures Tokens(Remaining(messages, max)) <= max || Dropped(messages, max) == |messages| - 2
  {
    DroppedAtMost(messages, max);
    hide Tokens, DropCount;
    if Tokens(messages) <= max {
      NothingDropped(messages, max);
    } else if |messages| > 2 {
      hide Framed;
      DropCountStops(messages[0], messages[1..|messages| - 1], messages[|messages| - 1], max);
    }
  }

  lemma NothingLeft(messages: seq<Message>)
    requires |messages| >= 2
    ensures messages[1..|messages| - 1][|messages| - 2..] == []
  {
  }

  /** Dropping stops at a suffix that fits, or with nothing between the system and the latest message. */
  lemma RemainingTokens(messages: seq<Message>, max: int)
    requires |messages| >= 2
    ensures var least := ContentTokens(messages[0].content) + 4 + Tokens([messages[|messages| - 1]]);
            && Tokens(Remaining(messages, max)) >= least
            && (Dropped(messages, max) < |messages| - 2 ==> Tokens(Remaining(messages, max)) <= max)
            && (Dropped(messages, max) == |messages| - 2 ==> Tokens(Remaining(messages, max)) == least)
  {
    var dropped := Dropped(messages, max);
    hide Tokens, ContentTokens, DropCount, Dropped, Framed;
    DroppedStops(messages, max);
    NoTokens();
    NothingLeft(messages);
    FramedTokens(messages[0], messages[1..|messages| - 1][dropped..], messages[|messages| - 1]);
  }

  /** System content that is not a string is neither noted nor cut: the output fits if and only if the
      system and the latest message alone do. */
  lemma OtherContentFitsIff(messages: seq<Message>, max: int)
    requires |messages| >= 2 && !messages[0].content.Text?
    ensures Tokens(Truncate(messages, max)) <= max <==> Tokens([messages[0], messages[|messages| - 1]]) <= max
  {
    var system, latest := messages[0], messages[|messages| - 1];
    assert Framed(system, [], latest) == [system, latest];
    FramedTokens(system, [], latest);
    NoTokens();
    hide Tokens, Truncate, TargetChars, DropNotice, Remaining, Dropped;
    TruncateFitsIff(messages, max);
    RemainingTokens(messages, max);
  }

  lemma NoTokens()
    ensures Tokens([]) == 0
  {
  }

  /** Above the threshold only the drop notice can push a conversation past the budget: string system
      content, and a latest message that leaves 77 tokens. The overrun then needs a history that was
      cut but not emptied, and a system text short enough to be left alone. */
  lemma TruncateBound(messages: seq<Message>, max: int)
    requires |messages| >= 2 && messages[0].content.Text? && max >= Tokens([messages[|messages| - 1]]) + MINIMUM
    ensures Tokens(Truncate(messages, max)) <= max + CeilQuarter(|DropNotice(Dropped(messages, max))|)
    ensures Tokens(Truncate(messages, max)) > max ==>
      0 < Dropped(messages, max) < |messages| - 2 && !Trims(messages, max)
  {
    if Tokens(Truncate(messages, max)) > max {
      NoticeOverrunIff(messages, max);
      TruncateShape(messages, max);
      UntrimmedTokens(messages, max);
      TrimsWhenCuttable(messages, max);
      NoticeCost(messages[0], Dropped(messages, max));
      RemainingFits(messages, max);
      DroppedStops(messages, max);
      hide Tokens, TargetChars, DropNotice, Truncate, Trims, Dropped, Untrimmed, Remaining, NoticeTokens;
    }
  }

  /** Dropping alone reaches the budget, unless it empties the history; and then a short system text does. */
  lemma RemainingFits(messages: seq<Message>, max: int)
    requires |messages| >= 2 && messages[0].content.Text? && max >= Tokens([messages[|messages| - 1]]) + MINIMUM
    requires |WithNotice(messages[0], Dropped(messages, max)).content.text| <= TargetChars(max, messages[|messages| - 1])
    ensures Dropped(messages, max) < |messages| - 2 ==> Tokens(Remaining(messages, max)) <= max
    ensures Dropped(messages, max) == |messages| - 2 ==>
      Tokens(Remaining(messages, max)) + NoticeTokens(messages[0], Dropped(messages, max)) <= max
  {
    var noted, latest := WithNotice(messages[0], Dropped(messages, max)), messages[|messages| - 1];
    ShortSystemFits(noted, latest, max);
    FramedTokens(noted, [], latest);
    NoTokens();
    hide Tokens, TargetChars, DropNotice, Remaining, Dropped;
    RemainingTokens(messages, max);
  }

  /** Below the threshold cutting never helps, for any budget and any conversation it comes to. */
  lemma BelowMinimumOverruns(messages: seq<Message>, max: int)
    requires |messages| >= 2 && Trims(messages, max) && max < Tokens([messages[|messages| - 1]]) + MINIMUM
    ensures Tokens(Truncate(messages, max)) > max
  {
    UntrimmedTokens(messages, max);
    TrimsWhenCuttable(messages, max);
    hide Tokens, Truncate, Trims, Remaining, NoticeTokens, Untrimmed;
    TruncateFitsIff(messages, max);
  }

  /** Such conversations exist for every latest message and every budget below its threshold. */
  lemma MinimumCanOverrun(system: Message, latest: Message, max: int)
    requires system.content.Text? && |system.content.text| >= 292 && max < Tokens([latest]) + MINIMUM
    ensures Tokens(Truncate([system, latest], max)) > max
  {
    assert Framed(system, [], latest) == [system, latest];
    FramedTokens(system, [], latest);
    BelowMinimumFitsIff([system, latest], max);
    hide Truncate;
  }

  function Said(role: string, length: nat): Message {
    Message(role, Text(seq(length, _ => 'a')))
  }

  /** And above the threshold as well, for every latest message and every budget: a history of two, the
      first of which is dropped to make room for a second that fills the budget, leaves none for the
      notice. A latest message of one token and a budget of 100, for example: 4 and 344 characters. */
  lemma NoticeCanOverrun(latest: Message, max: int)
    requires max >= Tokens([latest]) + MINIMUM
    ensures var filling := 4 * (max - Tokens([latest]) - 9);
            Tokens(Truncate([Said("system", 1), Said("user", 4), Said("user", filling), latest], max)) > max
  {
    var system, first := Said("system", 1), Said("user", 4);
    var second := Said("user", 4 * (max - Tokens([latest]) - 9));
    var messages := [system, first, second, latest];
    NoticeLength();
    FirstIsDropped(system, first, second, latest, max);
    hide Tokens, Truncate, DropNotice, Dropped, Remaining;
    NoticeOverrunIff(messages, max);
  }

  lemma FirstIsDropped(system: Message, first: Message, second: Message, latest: Message, max: int)
    requires max >= Tokens([latest]) + MINIMUM
    requires system == Said("system", 1) && first == Said("user", 4)
    requires second == Said("user", 4 * (max - Tokens([latest]) - 9))
    ensures Dropped([system, first, second, latest], max) == 1
    ensures Tokens(Remaining([system, first, second, latest], max)) == max
  {
    var history := [first, second];
    assert [system, first, second, latest][1..3] == history && history[1..] == [second];
    assert Framed(system, history, latest) == [system, first, second, latest];
    SaidTokens("user", 4);
    SaidTokens("user", |second.content.text|);
    TokensConcat([first], [second]);
    assert [first] + [second] == history;
    FramedTokens(system, history, latest);
    FramedTokens(system, [second], latest);
    hide Tokens;
    assert DropCount(system, [second], latest, max) == 0;
  }

  lemma SaidTokens(role: string, length: nat)
    ensures Tokens([Said(role, length)]) == Quarter(length) + 4
  {
    assert [Said(role, length)][..0] == [];
  }

  lemma NoticeLength()
    ensures 40 <= |DropNotice(1)| <= 100
  {
    assert Digits(1) == "1";
  }

  lemma NoticeCost(system: Message, dropped: nat)
    requires system.content.Text?
    ensures NoticeTokens(system, dropped) <= CeilQuarter(|DropNotice(dropped)|)
  {
    var n, k := |system.content.text|, |DropNotice(dropped)|;
    assert (n + k) / 4 <= n / 4 + (k + 3) / 4;
  }
}
