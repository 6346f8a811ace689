/** The string normalisations the code applies before it compares or stores text. */
module Text {

  /** White space as Go's TrimSpace and Python's strip treat it, on the characters they share. */
  predicate IsSpace(c: char) {
    c in " \t\n\r" || c in "\U{000B}\U{000C}\U{0085}\U{00A0}\U{1680}\U{2028}\U{2029}\U{202F}\U{205F}\U{3000}"
    || '\U{2000}' <= c <= '\U{200A}'
  }

  function TrimLeft(s: string): string {
    if s != "" && IsSpace(s[0]) then TrimLeft(s[1..]) else s
  }

  function TrimRight(s: string): string {
    if s != "" && IsSpace(s[|s| - 1]) then TrimRight(s[..|s| - 1]) else s
  }

  function Trim(s: string): string {
    TrimRight(TrimLeft(s))
  }

  /** Nothing left to trim at either end. */
  predicate Trimmed(s: string) {
    s == "" || (!IsSpace(s[0]) && !IsSpace(s[|s| - 1]))
  }

  /** `re.sub(r"\s+", " ", text)`. */
  function CollapseSpaces(s: string): string {
    if s == "" then ""
    else if IsSpace(s[0]) then
      (if |s| > 1 && IsSpace(s[1]) then CollapseSpaces(s[1..]) else " " + CollapseSpaces(s[1..]))
    else [s[0]] + CollapseSpaces(s[1..])
  }

  /** Lower-casing, on ASCII letters. */
  function LowerChar(c: char): char {
    if 'A' <= c <= 'Z' then ((c as int - 'A' as int) + 'a' as int) as char else c
  }

  function Lower(s: string): string {
    if s == "" then "" else [LowerChar(s[0])] + Lower(s[1..])
  }

  function UpperChar(c: char): char {
    if 'a' <= c <= 'z' then ((c as int - 'a' as int) + 'A' as int) as char else c
  }

  function Upper(s: string): string {
    if s == "" then "" else [UpperChar(s[0])] + Upper(s[1..])
  }

  /** White space by code point: the characters with Unicode's White_Space property. */
  lemma SpaceCodes(c: char)
    ensures var n := c as int;
            IsSpace(c) <==>
            9 <= n <= 13 || n in {32, 0x85, 0xA0, 0x1680, 0x2028, 0x2029, 0x202F, 0x205F, 0x3000} || 0x2000 <= n <= 0x200A
  {
  }

  /** The two mappings move the 26 letters by 32 code points and nothing else. */
  lemma LetterCodes(c: char)
    ensures LowerChar(c) as int == c as int + (if 65 <= c as int <= 90 then 32 else 0)
    ensures UpperChar(c) as int == c as int - (if 97 <= c as int <= 122 then 32 else 0)
  {
  }

  lemma {:induction false} TrimLeftStarts(s: string)
    ensures TrimLeft(s) == "" || !IsSpace(TrimLeft(s)[0])
  {
    if s != "" && IsSpace(s[0]) { TrimLeftStarts(s[1..]); }
  }

  lemma {:induction false} TrimRightEnds(s: string)
    ensures var t := TrimRight(s);
            t == "" || (!IsSpace(t[|t| - 1]) && s != "" && t[0] == s[0])
  {
    if s != "" && IsSpace(s[|s| - 1]) { TrimRightEnds(s[..|s| - 1]); }
  }

  lemma TrimIsTrimmed(s: string)
    ensures Trimmed(Trim(s))
  {
    TrimLeftStarts(s);
    TrimRightEnds(TrimLeft(s));
  }

  lemma TrimFixesTrimmed(s: string)
    requires Trimmed(s)
    ensures Trim(s) == s
  {
  }

  lemma TrimIdempotent(s: string)
    ensures Trim(Trim(s)) == Trim(s)
  {
    TrimIsTrimmed(s);
    TrimFixesTrimmed(Trim(s));
  }

  lemma {:induction false} LowerShape(s: string)
    ensures |Lower(s)| == |s|
    ensures forall i :: 0 <= i < |s| ==> Lower(s)[i] == LowerChar(s[i])
  {
    if s != "" { LowerShape(s[1..]); }
  }

  lemma LowerKeepsTrimmed(s: string)
    requires Trimmed(s)
    ensures Trimmed(Lower(s))
  {
    LowerShape(s);
  }

  lemma {:induction false} LowerIdempotent(s: string)
    ensures Lower(Lower(s)) == Lower(s)
  {
    if s != "" {
      LowerIdempotent(s[1..]);
      assert Lower(s)[1..] == Lower(s[1..]);
    }
  }

  /** `str(x).strip().lower()` is stable under a second pass. */
  lemma NormalIdempotent(s: string)
    ensures Lower(Trim(Lower(Trim(s)))) == Lower(Trim(s))
    ensures Trim(Lower(Trim(s))) == Lower(Trim(s))
  {
    TrimIsTrimmed(s);
    LowerKeepsTrimmed(Trim(s));
    TrimFixesTrimmed(Lower(Trim(s)));
    LowerIdempotent(Trim(s));
  }

  // --- words ---

  /** The runs of characters that are not white space, in order. */
  function Words(s: string): (words: seq<string>)
    ensures s != "" && !IsSpace(s[0]) ==> words != []
  {
    if s == "" then []
    else
      var rest := Words(s[1..]);
      if IsSpace(s[0]) then rest
      else if |s| > 1 && !IsSpace(s[1]) then [[s[0]] + rest[0]] + rest[1..]
      else [[s[0]]] + rest
  }

  function JoinWords(words: seq<string>): string {
    if words == [] then "" else if |words| == 1 then words[0] else words[0] + " " + JoinWords(words[1..])
  }

  lemma {:induction false} LastWordStays(s: string, c: char)
    requires IsSpace(c)
    ensures Words(s + [c]) == Words(s)
  {
    if s == "" {
      assert (s + [c])[1..] == "";
    } else {
      LastWordStays(s[1..], c);
      assert (s + [c])[1..] == s[1..] + [c];
    }
  }

  lemma {:induction false} TrimLeftKeepsWords(s: string)
    ensures Words(TrimLeft(s)) == Words(s)
  {
    if s != "" && IsSpace(s[0]) { TrimLeftKeepsWords(s[1..]); }
  }

  lemma {:induction false} TrimRightKeepsWords(s: string)
    ensures Words(TrimRight(s)) == Words(s)
  {
    if s != "" && IsSpace(s[|s| - 1]) {
      TrimRightKeepsWords(s[..|s| - 1]);
      LastWordStays(s[..|s| - 1], s[|s| - 1]);
      assert s[..|s| - 1] + [s[|s| - 1]] == s;
    }
  }

  /** Stripping loses no word. */
  lemma TrimKeepsWords(s: string)
    ensures Words(Trim(s)) == Words(s)
  {
    TrimRightKeepsWords(TrimLeft(s));
    TrimLeftKeepsWords(s);
  }

  /** Collapsing white space leaves the words with one space between them. */
  lemma {:induction false} CollapseIsJoin(s: string)
    requires s == "" || !IsSpace(s[|s| - 1])
    ensures s != "" ==> Words(s) != []
    ensures CollapseSpaces(s) == (if s != "" && IsSpace(s[0]) then " " else "") + JoinWords(Words(s))
  {
    if s != "" {
      CollapseIsJoin(s[1..]);
      CollapseStep(s);
    }
  }

  /** One unfolding of each. */
  lemma WordsStep(s: string)
    requires s != ""
    ensures IsSpace(s[0]) ==> Words(s) == Words(s[1..])
    ensures !IsSpace(s[0]) && |s| > 1 && !IsSpace(s[1]) ==>
      var rest := Words(s[1..]); rest != [] && Words(s) == [[s[0]] + rest[0]] + rest[1..]
    ensures !IsSpace(s[0]) && (|s| == 1 || IsSpace(s[1])) ==> Words(s) == [[s[0]]] + Words(s[1..])
  {
    if |s| > 1 && !IsSpace(s[1]) { assert s[1..] != "" && s[1..][0] == s[1]; }
  }

  lemma CollapsesStep(s: string)
    requires s != ""
    ensures IsSpace(s[0]) && |s| > 1 && IsSpace(s[1]) ==> CollapseSpaces(s) == CollapseSpaces(s[1..])
    ensures IsSpace(s[0]) && !(|s| > 1 && IsSpace(s[1])) ==> CollapseSpaces(s) == " " + CollapseSpaces(s[1..])
    ensures !IsSpace(s[0]) ==> CollapseSpaces(s) == [s[0]] + CollapseSpaces(s[1..])
  {
  }

  lemma CollapseStep(s: string)
    requires s != "" && !IsSpace(s[|s| - 1]) && (|s| > 1 ==> Words(s[1..]) != [])
    requires CollapseSpaces(s[1..]) == (if |s| > 1 && IsSpace(s[1]) then " " else "") + JoinWords(Words(s[1..]))
    ensures Words(s) != []
    ensures CollapseSpaces(s) == (if IsSpace(s[0]) then " " else "") + JoinWords(Words(s))
  {
    hide *;
    WordsStep(s);
    CollapsesStep(s);
    if IsSpace(s[0]) {
    } else if |s| == 1 {
      OneLetter(s);
    } else if IsSpace(s[1]) {
      JoinOneMore([s[0]], Words(s[1..]));
      Regroup([s[0]], " ", JoinWords(Words(s[1..])));
      NothingInFront(JoinWords(Words(s)));
    } else {
      JoinLonger(s[0], Words(s[1..]));
      NothingInFront(JoinWords(Words(s[1..])));
      NothingInFront(JoinWords(Words(s)));
    }
  }

  lemma Regroup(a: string, b: string, c: string)
    ensures a + (b + c) == a + b + c
  {
  }

  lemma NothingInFront(a: string)
    ensures "" + a == a
  {
  }

  lemma OneLetter(s: string)
    requires |s| == 1 && !IsSpace(s[0])
    ensures CollapseSpaces(s) == "" + JoinWords(Words(s)) && Words(s) != []
  {
    assert s[1..] == "" && Words(s) == [[s[0]]] && CollapseSpaces(s) == [s[0]] + "";
  }

  lemma JoinLonger(c: char, words: seq<string>)
    requires words != []
    ensures JoinWords([[c] + words[0]] + words[1..]) == [c] + JoinWords(words)
  {
    hide *;
    if |words| == 1 {
      OneWord(words[0]);
      OneWord([c] + words[0]);
      assert words == [words[0]] && [[c] + words[0]] + words[1..] == [[c] + words[0]];
    } else {
      JoinOneMore(words[0], words[1..]);
      JoinOneMore([c] + words[0], words[1..]);
      FirstAndRest(words);
      Regroup([c], words[0], " ");
      Regroup([c], words[0] + " ", JoinWords(words[1..]));
    }
  }

  lemma OneWord(word: string)
    ensures JoinWords([word]) == word
  {
  }

  lemma FirstAndRest(words: seq<string>)
    requires words != []
    ensures [words[0]] + words[1..] == words
  {
  }

  lemma JoinOneMore(word: string, words: seq<string>)
    requires words != []
    ensures JoinWords([word] + words) == word + " " + JoinWords(words)
  {
    assert ([word] + words)[1..] == words;
  }

  lemma {:induction false} CollapseKeepsWords(s: string)
    ensures Words(CollapseSpaces(s)) == Words(s)
    ensures CollapseSpaces(s) != "" <==> s != ""
    ensures s != "" ==> (IsSpace(CollapseSpaces(s)[0]) <==> IsSpace(s[0]))
  {
    if s != "" {
      CollapseKeepsWords(s[1..]);
      var t := CollapseSpaces(s);
      if IsSpace(s[0]) {
        if !(|s| > 1 && IsSpace(s[1])) { assert t[1..] == CollapseSpaces(s[1..]); }
      } else {
        assert t[1..] == CollapseSpaces(s[1..]);
        assert |t| > 1 <==> |s| > 1;
      }
    }
  }

  /** Two texts are the same after stripping and collapsing exactly when they have the same words. */
  lemma SameWordsIff(a: string, b: string)
    ensures CollapseSpaces(Trim(a)) == CollapseSpaces(Trim(b)) <==> Words(a) == Words(b)
  {
    TrimKeepsWords(a);
    TrimKeepsWords(b);
    CollapseKeepsWords(Trim(a));
    CollapseKeepsWords(Trim(b));
    TrimIsTrimmed(a);
    TrimIsTrimmed(b);
    CollapseIsJoin(Trim(a));
    CollapseIsJoin(Trim(b));
    hide Words, CollapseSpaces, JoinWords, Trim;
    if Words(a) == Words(b) { NoWords(Trim(a)); NoWords(Trim(b)); }
  }

  lemma NoWords(s: string)
    requires Trimmed(s)
    ensures s == "" <==> Words(s) == []
  {
  }

  lemma LowerSpace(c: char)
    ensures IsSpace(LowerChar(c)) <==> IsSpace(c)
  {
    SpaceCodes(c);
    SpaceCodes(LowerChar(c));
    LetterCodes(c);
    hide *;
  }

  lemma {:induction false} LowerTrimLeft(s: string)
    ensures TrimLeft(Lower(s)) == Lower(TrimLeft(s))
  {
    if s != "" {
      LowerSpace(s[0]);
      assert Lower(s)[1..] == Lower(s[1..]);
      LowerTrimLeft(s[1..]);
    }
  }

  lemma {:induction false} LowerTrimRight(s: string)
    ensures TrimRight(Lower(s)) == Lower(TrimRight(s))
  {
    if s != "" {
      LowerShape(s);
      LowerShape(s[..|s| - 1]);
      LowerSpace(s[|s| - 1]);
      assert Lower(s)[..|s| - 1] == Lower(s[..|s| - 1]);
      LowerTrimRight(s[..|s| - 1]);
    }
  }

  /** Lower-casing and stripping commute. */
  lemma LowerTrimCommute(s: string)
    ensures Lower(Trim(s)) == Trim(Lower(s))
  {
    LowerTrimLeft(s);
    LowerTrimRight(TrimLeft(s));
  }
}
