/** The display-title excerpt, on the bytes of its UTF-8 text. */
module TitleExcerpts {
  import opened Bytes
  import opened Sequences

  const SPACE: byte := 32
  const COMMA: byte := 44

  /** U+2026 in UTF-8. */
  const ELLIPSIS: bytes := [0xE2, 0x80, 0xA6]

  /** White space in the "C" locale. */
  predicate IsSpace(b: byte) {
    9 <= b <= 13 || b == SPACE
  }

  // ----- UTF-8: section 4 of RFC 3629 -----

  predicate IsTail(b: byte) {
    0x80 <= b <= 0xBF
  }

  predicate SecondAllowed(first: byte, second: byte) {
    && IsTail(second)
    && (first == 0xE0 ==> second >= 0xA0)
    && (first == 0xED ==> second <= 0x9F)
    && (first == 0xF0 ==> second >= 0x90)
    && (first == 0xF4 ==> second <= 0x8F)
  }

  /** How long the character is that the bytes begin with, or 0 if they do not begin with one. */
  function CharLength(s: bytes): (n: nat)
    ensures n <= 4 && n <= |s|
  {
    if s == [] then 0
    else if s[0] <= 0x7F then 1
    else if 0xC2 <= s[0] <= 0xDF && |s| >= 2 && IsTail(s[1]) then 2
    else if 0xE0 <= s[0] <= 0xEF && |s| >= 3 && SecondAllowed(s[0], s[1]) && IsTail(s[2]) then 3
    else if 0xF0 <= s[0] <= 0xF4 && |s| >= 4 && SecondAllowed(s[0], s[1]) && IsTail(s[2]) && IsTail(s[3]) then 4
    else 0
  }

  predicate ValidUtf8(s: bytes) {
    s == [] || (CharLength(s) > 0 && ValidUtf8(s[CharLength(s)..]))
  }

  lemma CharLengthOfBeginning(a: bytes, s: bytes)
    requires a <= s && (0 < CharLength(s) <= |a| || CharLength(a) > 0)
    ensures CharLength(a) == CharLength(s)
  {
    assert forall i | 0 <= i < |a| :: a[i] == s[i];
  }

  lemma DropOfAppend(a: bytes, b: bytes, n: nat)
    requires n == CharLength(a) > 0
    ensures CharLength(a + b) == n && (a + b)[n..] == a[n..] + b
  {
    CharLengthOfBeginning(a, a + b);
  }

  lemma FirstThenValid(s: bytes, n: nat)
    requires n == CharLength(s) > 0 && ValidUtf8(s[n..])
    ensures ValidUtf8(s)
  {
  }

  lemma {:induction false} ValidAppend(a: bytes, b: bytes)
    requires ValidUtf8(a) && ValidUtf8(b)
    ensures ValidUtf8(a + b)
  {
    if a == [] {
      assert a + b == b;
    } else {
      var n := CharLength(a);
      ValidAppend(a[n..], b);
      DropOfAppend(a, b, n);
      FirstThenValid(a + b, n);
    }
  }

  /** A cut in front of anything but a tail byte leaves whole characters. */
  lemma {:induction false} CutBetweenCharacters(s: bytes, cut: nat)
    requires ValidUtf8(s) && cut <= |s| && (cut < |s| ==> !IsTail(s[cut]))
    ensures ValidUtf8(s[..cut])
  {
    if s != [] && cut > 0 {
      var n := CharLength(s);
      assert cut >= n;
      CutBetweenCharacters(s[n..], cut - n);
      CharLengthOfBeginning(s[..cut], s);
      assert s[..cut][n..] == s[n..][..cut - n];
    }
  }

  // ----- Words -----

  /** The maximal runs without white space. */
  function Words(text: bytes): (words: seq<bytes>)
    ensures forall i | 0 <= i < |words| :: words[i] != []
    ensures text != [] && !IsSpace(text[0]) ==> words != []
  {
    if text == [] then []
    else if IsSpace(text[0]) then Words(text[1..])
    else if |text| == 1 || IsSpace(text[1]) then [[text[0]]] + Words(text[1..])
    else
      var others := Words(text[1..]);
      [[text[0]] + others[0]] + others[1..]
  }

  /** The bytes of a text that are not white space, in order. */
  function Ink(text: bytes): bytes {
    if text == [] then [] else (if IsSpace(text[0]) then [] else [text[0]]) + Ink(text[1..])
  }

  /** Nothing but white space is lost, and nothing is added or moved. */
  lemma {:induction false} WordsKeepInk(text: bytes)
    ensures Flat(Words(text)) == Ink(text)
  {
    if text != [] {
      WordsKeepInk(text[1..]);
    }
  }

  predicate AllSpace(s: bytes) {
    forall i | 0 <= i < |s| :: IsSpace(s[i])
  }

  predicate IsWord(word: bytes) {
    word != [] && forall i | 0 <= i < |word| :: !IsSpace(word[i])
  }

  /** The text is white space, a word up to the next white space or the end, and the rest. */
  predicate BeginsWith(text: bytes, gap: bytes, word: bytes, rest: bytes) {
    && text == gap + word + rest && AllSpace(gap) && IsWord(word) && (rest != [] ==> IsSpace(rest[0]))
  }

  /** The words are those that stand in the text between white space, all of them, in order. */
  ghost predicate AreWordsOf(words: seq<bytes>, text: bytes)
    decreases |words|
  {
    if words == [] then AllSpace(text)
    else exists gap, rest :: BeginsWith(text, gap, words[0], rest) && AreWordsOf(words[1..], rest)
  }

  lemma SpacesOfBeginning(text: bytes, gap: bytes, word: bytes, rest: bytes)
    requires BeginsWith(text, gap, word, rest)
    ensures |gap| < |gap| + |word| <= |text|
    ensures forall i | 0 <= i < |gap| :: IsSpace(text[i])
    ensures forall i | |gap| <= i < |gap| + |word| :: !IsSpace(text[i])
    ensures |gap| + |word| < |text| ==> IsSpace(text[|gap| + |word|])
  {
    assert forall i | 0 <= i < |gap| :: text[i] == gap[i];
    assert forall i | |gap| <= i < |gap| + |word| :: text[i] == word[i - |gap|];
  }

  lemma SpaceFirst(words: seq<bytes>, text: bytes)
    requires text != [] && IsSpace(text[0]) && AreWordsOf(words, text[1..])
    ensures AreWordsOf(words, text)
  {
    assert text == [text[0]] + text[1..];
    if words != [] {
      var gap, rest :| BeginsWith(text[1..], gap, words[0], rest) && AreWordsOf(words[1..], rest);
      assert [text[0]] + (gap + words[0] + rest) == ([text[0]] + gap) + words[0] + rest;
      assert BeginsWith(text, [text[0]] + gap, words[0], rest);
    }
  }

  lemma LetterGoesOn(words: seq<bytes>, text: bytes)
    requires |text| > 1 && !IsSpace(text[0]) && !IsSpace(text[1]) && words != [] && AreWordsOf(words, text[1..])
    ensures AreWordsOf([[text[0]] + words[0]] + words[1..], text)
  {
    var longer := [[text[0]] + words[0]] + words[1..];
    var gap, rest :| BeginsWith(text[1..], gap, words[0], rest) && AreWordsOf(words[1..], rest);
    SpacesOfBeginning(text[1..], gap, words[0], rest);
    assert gap == [];
    assert text == [text[0]] + text[1..];
    assert [text[0]] + (gap + words[0] + rest) == [] + ([text[0]] + words[0]) + rest;
    assert longer[1..] == words[1..];
    assert BeginsWith(text, [], longer[0], rest);
  }

  lemma LetterAlone(words: seq<bytes>, text: bytes)
    requires text != [] && !IsSpace(text[0]) && (|text| > 1 ==> IsSpace(text[1])) && AreWordsOf(words, text[1..])
    ensures AreWordsOf([[text[0]]] + words, text)
  {
    assert ([[text[0]]] + words)[1..] == words;
    assert text == [] + [text[0]] + text[1..];
    assert BeginsWith(text, [], [text[0]], text[1..]);
  }

  lemma {:induction false} WordsStandInText(text: bytes)
    ensures AreWordsOf(Words(text), text)
  {
    if text != [] {
      WordsStandInText(text[1..]);
      if IsSpace(text[0]) {
        SpaceFirst(Words(text[1..]), text);
      } else if |text| == 1 || IsSpace(text[1]) {
        LetterAlone(Words(text[1..]), text);
      } else {
        LetterGoesOn(Words(text[1..]), text);
      }
    }
  }

  lemma BeginningsDiffer(text: bytes, g: bytes, v: bytes, r: bytes, h: bytes, w: bytes, s: bytes)
    requires BeginsWith(text, g, v, r) && BeginsWith(text, h, w, s)
    ensures |g| <= |h|
    ensures |g| == |h| ==> |v| <= |w|
  {
    SpacesOfBeginning(text, g, v, r);
    SpacesOfBeginning(text, h, w, s);
    assert !IsSpace(text[|h|]);
  }

  lemma SameBeginnings(text: bytes, g: bytes, v: bytes, r: bytes, h: bytes, w: bytes, s: bytes)
    requires BeginsWith(text, g, v, r) && BeginsWith(text, h, w, s)
    ensures v == w && r == s
  {
    BeginningsDiffer(text, g, v, r, h, w, s);
    BeginningsDiffer(text, h, w, s, g, v, r);
    SameBeginning(g + v, r, h + w, s);
    SameBeginning(g, v, h, w);
  }

  lemma BeginsWithInk(text: bytes, gap: bytes, word: bytes, rest: bytes)
    requires BeginsWith(text, gap, word, rest)
    ensures !AllSpace(text)
  {
    assert text[|gap|] == word[0];
  }

  /** No text has two lists of words. */
  lemma {:induction false} WordsAreUnique(a: seq<bytes>, b: seq<bytes>, text: bytes)
    requires AreWordsOf(a, text) && AreWordsOf(b, text)
    ensures a == b
    decreases |a|
  {
    if a != [] {
      var g, r :| BeginsWith(text, g, a[0], r) && AreWordsOf(a[1..], r);
      BeginsWithInk(text, g, a[0], r);
      var h, s :| BeginsWith(text, h, b[0], s) && AreWordsOf(b[1..], s);
      SameBeginnings(text, g, a[0], r, h, b[0], s);
      WordsAreUnique(a[1..], b[1..], r);
      assert a == [a[0]] + a[1..] && b == [b[0]] + b[1..];
    } else if b != [] {
      var h, s :| BeginsWith(text, h, b[0], s) && AreWordsOf(b[1..], s);
      BeginsWithInk(text, h, b[0], s);
    }
  }

  function Spaced(words: seq<bytes>): bytes {
    if words == [] then []
    else if |words| == 1 then words[0]
    else words[0] + [SPACE] + Spaced(words[1..])
  }

  /** What the collapsing is for: the words with one space between them. */
  function Collapsed(text: bytes): bytes {
    Spaced(Words(text))
  }

  function TrimmedEnd(s: bytes, drop: set<byte>): (trimmed: bytes)
    ensures |trimmed| <= |s| && trimmed == s[..|trimmed|]
    ensures trimmed == [] || trimmed[|trimmed| - 1] !in drop
    ensures forall i | |trimmed| <= i < |s| :: s[i] in drop
  {
    if s != [] && s[|s| - 1] in drop then TrimmedEnd(s[..|s| - 1], drop) else s
  }

  /** What the collapsing loop appends for a text. */
  function Squeezed(text: bytes, lastSpace: bool): bytes {
    if text == [] then []
    else if !IsSpace(text[0]) then [text[0]] + Squeezed(text[1..], false)
    else if lastSpace then Squeezed(text[1..], true)
    else [SPACE] + Squeezed(text[1..], true)
  }

  lemma {:induction false} TrimAppend(a: bytes, b: bytes, drop: set<byte>)
    requires a != [] && a[|a| - 1] !in drop
    ensures TrimmedEnd(a + b, drop) == a + TrimmedEnd(b, drop)
  {
    if b == [] {
      assert a + b == a;
    } else if b[|b| - 1] in drop {
      TrimAppend(a, b[..|b| - 1], drop);
      assert (a + b)[..|a + b| - 1] == a + b[..|b| - 1];
    }
  }

  lemma {:induction false} TrimLeading(b: bytes, drop: set<byte>)
    requires b != [] && TrimmedEnd(b[1..], drop) != []
    ensures TrimmedEnd(b, drop) == [b[0]] + TrimmedEnd(b[1..], drop)
  {
    if b[|b| - 1] in drop {
      assert b[1..][..|b[1..]| - 1] == b[..|b| - 1][1..];
      TrimLeading(b[..|b| - 1], drop);
    }
  }

  /** Squeezing and then trimming the end leaves the words, spaced. */
  lemma {:induction false} SqueezedIsCollapsed(text: bytes)
    decreases |text|, 0
    ensures TrimmedEnd(Squeezed(text, true), {SPACE}) == Collapsed(text)
  {
    if text != [] {
      if IsSpace(text[0]) {
        SqueezedIsCollapsed(text[1..]);
      } else {
        SqueezedAfter(text[0], text[1..]);
      }
    }
  }

  lemma {:induction false} SqueezedAfter(first: byte, text: bytes)
    requires !IsSpace(first)
    ensures TrimmedEnd([first] + Squeezed(text, false), {SPACE}) == Collapsed([first] + text)
    decreases |text|, 1
  {
    assert ([first] + text)[1..] == text;
    TrimAppend([first], Squeezed(text, false), {SPACE});
    if text != [] && IsSpace(text[0]) {
      SqueezedIsCollapsedTail(text[1..]);
      NewWord(first, text);
    } else if text != [] {
      SqueezedAfter(text[0], text[1..]);
      assert text == [text[0]] + text[1..];
      SpacedFirst(first, Words(text));
    }
  }

  /** A byte in front of white space is a word of its own. */
  lemma NewWord(first: byte, text: bytes)
    requires !IsSpace(first) && text != [] && IsSpace(text[0])
    ensures Collapsed([first] + text) == [first] + if Words(text) == [] then [] else [SPACE] + Collapsed(text)
  {
    var others := Words(text);
    assert ([first] + text)[1..] == text;
    assert Words([first] + text) == [[first]] + others && ([[first]] + others)[1..] == others;
  }

  lemma SpacedFirst(first: byte, words: seq<bytes>)
    requires words != []
    ensures Spaced([[first] + words[0]] + words[1..]) == [first] + Spaced(words)
  {
    var longer := [[first] + words[0]] + words[1..];
    assert longer[1..] == words[1..];
  }

  /** After a word: the space is kept exactly if another word follows. */
  lemma SqueezedIsCollapsedTail(text: bytes)
    decreases |text|, 2
    ensures TrimmedEnd([SPACE] + Squeezed(text, true), {SPACE})
            == if Words(text) == [] then [] else [SPACE] + Collapsed(text)
  {
    var squeezed := Squeezed(text, true);
    if Words(text) == [] {
      NoWords(text);
    } else {
      SqueezedIsCollapsed(text);
      assert ([SPACE] + squeezed)[1..] == squeezed;
      TrimLeading([SPACE] + squeezed, {SPACE});
    }
  }

  lemma {:induction false} NoWords(text: bytes)
    requires Words(text) == []
    ensures Squeezed(text, true) == []
  {
    if text != [] {
      NoWords(text[1..]);
    }
  }

  // ----- The excerpt -----

  predicate AllTails(s: bytes, from: nat, to: nat)
    requires to <= |s|
  {
    forall i | from <= i < to :: IsTail(s[i])
  }

  predicate NoSpaces(s: bytes, from: nat, to: nat)
    requires to <= |s|
  {
    forall i | from <= i < to :: s[i] != SPACE
  }

  /** Where the text is cut: at the last space that keeps it short enough, or else in front of a whole character. */
  predicate IsCut(s: bytes, maxLength: nat, cut: nat)
    requires maxLength < |s|
  {
    && cut <= maxLength
    && if NoSpaces(s, 1, maxLength + 1)
       then (cut == 0 || !IsTail(s[cut])) && AllTails(s, cut + 1, maxLength + 1)
       else cut > 0 && s[cut] == SPACE && NoSpaces(s, cut + 1, maxLength + 1)
  }

  /** What is left in front of the ellipsis: the text up to the cut, without separators at its end. */
  ghost predicate IsExcerpt(s: bytes, maxLength: nat, head: bytes) {
    maxLength < |s| && exists cut: nat :: IsCut(s, maxLength, cut) && head == TrimmedEnd(s[..cut], {SPACE, COMMA})
  }

  /** So the excerpt is determined by the text and the limit. */
  lemma ExcerptIsUnique(s: bytes, maxLength: nat, head: bytes, other: bytes)
    requires IsExcerpt(s, maxLength, head) && IsExcerpt(s, maxLength, other)
    ensures head == other
  {
    var a: nat :| IsCut(s, maxLength, a) && head == TrimmedEnd(s[..a], {SPACE, COMMA});
    var b: nat :| IsCut(s, maxLength, b) && other == TrimmedEnd(s[..b], {SPACE, COMMA});
    NotBefore(s, maxLength, a, b);
    NotBefore(s, maxLength, b, a);
  }

  lemma NotBefore(s: bytes, maxLength: nat, a: nat, b: nat)
    requires maxLength < |s| && IsCut(s, maxLength, a) && IsCut(s, maxLength, b)
    ensures a <= b
  {
  }

  method Collapse(text: bytes) returns (collapsed: bytes)
    ensures collapsed == Collapsed(text)
  {
    collapsed := [];
    var lastSpace := true;
    for i := 0 to |text|
      invariant collapsed + Squeezed(text[i..], lastSpace) == Squeezed(text, true)
    {
      assert text[i..][1..] == text[i + 1..];
      if IsSpace(text[i]) {
        if !lastSpace {
          Regrouped(collapsed, [SPACE], Squeezed(text[i + 1..], true));
          collapsed := collapsed + [SPACE];
          lastSpace := true;
        }
      } else {
        Regrouped(collapsed, [text[i]], Squeezed(text[i + 1..], false));
        collapsed := collapsed + [text[i]];
        lastSpace := false;
      }
    }
    assert collapsed + [] == collapsed;
    collapsed := TrimEnd(collapsed, {SPACE});
    SqueezedIsCollapsed(text);
  }

  method TrimEnd(s: bytes, drop: set<byte>) returns (trimmed: bytes)
    ensures trimmed == TrimmedEnd(s, drop)
  {
    trimmed := s;
    while trimmed != [] && trimmed[|trimmed| - 1] in drop
      invariant TrimmedEnd(trimmed, drop) == TrimmedEnd(s, drop)
      decreases |trimmed|
    {
      trimmed := trimmed[..|trimmed| - 1];
    }
  }

  method Cut(s: bytes, maxLength: nat) returns (cut: nat)
    requires maxLength < |s|
    ensures IsCut(s, maxLength, cut)
  {
    cut := maxLength;
    while cut > 0 && s[cut] != SPACE
      invariant cut <= maxLength && NoSpaces(s, cut + 1, maxLength + 1)
    {
      cut := cut - 1;
    }
    if cut > 0 {
      return;
    }
    cut := maxLength;
    while cut > 0 && IsTail(s[cut])
      invariant cut <= maxLength && AllTails(s, cut + 1, maxLength + 1)
    {
      cut := cut - 1;
    }
  }

  // ----- What an excerpt promises -----

  /** No white space but single spaces between other bytes. */
  predicate Tidy(s: bytes) {
    && (s != [] ==> !IsSpace(s[0]) && !IsSpace(s[|s| - 1]))
    && (forall i | 0 <= i < |s| && IsSpace(s[i]) :: s[i] == SPACE)
    && (forall i | 0 <= i < |s| - 1 && IsSpace(s[i]) :: !IsSpace(s[i + 1]))
  }

  lemma {:induction false} WordsAreWords(text: bytes)
    ensures forall i | 0 <= i < |Words(text)| :: IsWord(Words(text)[i])
  {
    if text != [] {
      WordsAreWords(text[1..]);
    }
  }

  lemma {:induction false} SpacedIsTidy(words: seq<bytes>)
    requires forall i | 0 <= i < |words| :: IsWord(words[i])
    ensures Tidy(Spaced(words)) && (Spaced(words) == [] <==> words == [])
  {
    if |words| > 1 {
      SpacedIsTidy(words[1..]);
      TidyAfterWord(words[0], Spaced(words[1..]));
    }
  }

  lemma TidyAfterWord(word: bytes, others: bytes)
    requires IsWord(word) && Tidy(others) && others != []
    ensures Tidy(word + [SPACE] + others)
  {
    var s := word + [SPACE] + others;
    forall i | 0 <= i < |s| && IsSpace(s[i])
      ensures s[i] == SPACE && (i < |s| - 1 ==> !IsSpace(s[i + 1])) {
      if i > |word| {
        assert s[i] == others[i - |word| - 1];
      }
    }
  }

  lemma CollapsedIsTidy(text: bytes)
    ensures Tidy(Collapsed(text)) && (Collapsed(text) == [] <==> Words(text) == [])
  {
    WordsAreWords(text);
    SpacedIsTidy(Words(text));
  }

  /** Tidy text is its own collapse: it has the words it shows. */
  lemma {:induction false} TidyIsCollapsed(s: bytes)
    requires Tidy(s)
    ensures Collapsed(s) == s
  {
    if |s| > 1 {
      if IsSpace(s[1]) {
        assert !IsSpace(s[2]);
        TidyRest(s, 2);
        TidyIsCollapsed(s[2..]);
        assert s[1..][1..] == s[2..] && Words(s[1..]) == Words(s[2..]);
        assert s == [s[0]] + [SPACE] + s[2..];
        assert Words(s) == [[s[0]]] + Words(s[2..]) && Words(s)[1..] == Words(s[2..]);
      } else {
        TidyRest(s, 1);
        TidyIsCollapsed(s[1..]);
        SpacedFirst(s[0], Words(s[1..]));
        assert s == [s[0]] + s[1..];
      }
    }
  }

  lemma TidyRest(s: bytes, n: nat)
    requires Tidy(s) && n < |s| && !IsSpace(s[n])
    ensures Tidy(s[n..])
  {
    var rest := s[n..];
    forall i | 0 <= i < |rest| - 1 && IsSpace(rest[i]) ensures !IsSpace(rest[i + 1]) {
      assert IsSpace(s[n + i]);
    }
  }

  /** A text that collapses to the limit or less keeps its title: the title's title is the title. */
  lemma ShortTitlesAreFixed(text: bytes)
    ensures Collapsed(Collapsed(text)) == Collapsed(text)
  {
    CollapsedIsTidy(text);
    TidyIsCollapsed(Collapsed(text));
  }

  lemma {:induction false} ValidSqueezed(text: bytes, lastSpace: bool)
    requires ValidUtf8(text)
    ensures ValidUtf8(Squeezed(text, lastSpace))
    decreases |text|
  {
    if text != [] {
      var n := CharLength(text);
      var rest := text[n..];
      if n == 1 {
        assert text[1..] == rest;
        ValidSqueezed(rest, if IsSpace(text[0]) then true else false);
        ValidByte(SPACE, Squeezed(rest, true));
        ValidByte(text[0], Squeezed(rest, false));
      } else {
        ValidSqueezed(rest, false);
        NoSpaceInCharacter(text);
        SqueezedCharacter(text, n, lastSpace);
        CutBetweenCharacters(text[..n], n);
        CharLengthOfBeginning(text[..n], text);
        assert text[..n][n..] == [];
        ValidAppend(text[..n], Squeezed(rest, false));
      }
    }
  }

  lemma ValidByte(b: byte, s: bytes)
    requires b <= 0x7F
    ensures ValidUtf8([b] + s) <==> ValidUtf8(s)
  {
    assert ([b] + s)[1..] == s;
  }

  lemma NoSpaceInCharacter(text: bytes)
    requires CharLength(text) > 1
    ensures forall i | 0 <= i < CharLength(text) :: !IsSpace(text[i])
  {
  }

  lemma {:induction false} SqueezedCharacter(text: bytes, n: nat, lastSpace: bool)
    requires 0 < n <= |text| && forall i | 0 <= i < n :: !IsSpace(text[i])
    ensures Squeezed(text, lastSpace) == text[..n] + Squeezed(text[n..], false)
    decreases n
  {
    if n > 1 {
      SqueezedCharacter(text[1..], n - 1, false);
      assert text[..n] == [text[0]] + text[1..][..n - 1] && text[1..][n - 1..] == text[n..];
    } else {
      assert text[..1] == [text[0]];
    }
  }

  lemma ValidTrimmed(s: bytes, drop: set<byte>)
    requires ValidUtf8(s) && drop <= {SPACE, COMMA}
    ensures ValidUtf8(TrimmedEnd(s, drop))
  {
    CutBetweenCharacters(s, |TrimmedEnd(s, drop)|);
  }

  lemma ValidCollapsed(text: bytes)
    requires ValidUtf8(text)
    ensures ValidUtf8(Collapsed(text))
  {
    ValidSqueezed(text, true);
    SqueezedIsCollapsed(text);
    ValidTrimmed(Squeezed(text, true), {SPACE});
  }

  /** The text in front of the ellipsis: short enough, a prefix of the collapsed text, and tidy. */
  lemma ExcerptIsTidy(text: bytes, maxLength: nat, head: bytes)
    requires IsExcerpt(Collapsed(text), maxLength, head)
    ensures head <= Collapsed(text) && |head| <= maxLength
    ensures Tidy(head + ELLIPSIS) && (head != [] ==> head[|head| - 1] != COMMA)
  {
    var s := Collapsed(text);
    CollapsedIsTidy(text);
    assert head == s[..|head|];
    TidyWithEllipsis(s, |head|);
  }

  /** And whole characters, if the text was. */
  lemma ExcerptIsValidUtf8(text: bytes, maxLength: nat, head: bytes)
    requires IsExcerpt(Collapsed(text), maxLength, head) && ValidUtf8(text)
    ensures ValidUtf8(head + ELLIPSIS)
  {
    var s := Collapsed(text);
    var cut: nat :| IsCut(s, maxLength, cut) && head == TrimmedEnd(s[..cut], {SPACE, COMMA});
    ValidCollapsed(text);
    CutIsBetweenCharacters(s, maxLength, cut);
    CutBetweenCharacters(s, cut);
    ValidTrimmed(s[..cut], {SPACE, COMMA});
    EllipsisIsValid();
    ValidAppend(head, ELLIPSIS);
  }

  lemma TidyWithEllipsis(s: bytes, n: nat)
    requires Tidy(s) && n <= |s| && (n > 0 ==> s[n - 1] != SPACE)
    ensures Tidy(s[..n] + ELLIPSIS)
  {
    var title := s[..n] + ELLIPSIS;
    forall i | 0 <= i < |title| && IsSpace(title[i]) ensures i < n - 1 && title[i] == s[i] && title[i + 1] == s[i + 1] {
    }
  }

  /** A first byte of valid text is not a tail, so a cut that backed off to the start is one too. */
  lemma CutIsBetweenCharacters(s: bytes, maxLength: nat, cut: nat)
    requires ValidUtf8(s) && maxLength < |s| && IsCut(s, maxLength, cut)
    ensures !IsTail(s[cut])
  {
    if cut == 0 {
      assert CharLength(s) > 0;
    }
  }

  lemma EllipsisIsValid()
    ensures ValidUtf8(ELLIPSIS)
  {
    assert CharLength(ELLIPSIS) == 3 && ELLIPSIS[3..] == [];
  }

  // ----- The function -----

  method TitleExcerpt(text: bytes, maxLength: nat, fallback: bytes) returns (title: bytes)
    ensures Words(text) == [] ==> title == fallback
    ensures Words(text) != [] && |Collapsed(text)| <= maxLength ==> title == Collapsed(text)
    ensures |Collapsed(text)| > maxLength ==>
              exists head :: IsExcerpt(Collapsed(text), maxLength, head) && title == head + ELLIPSIS
    ensures Words(text) != [] ==> title != [] && Tidy(title)
    ensures ValidUtf8(text) && ValidUtf8(fallback) ==> ValidUtf8(title)
  {
    var collapsed := Collapse(text);
    CollapsedIsTidy(text);
    if collapsed == [] {
      return fallback;
    }
    if |collapsed| <= maxLength {
      if ValidUtf8(text) {
        ValidCollapsed(text);
      }
      return collapsed;
    }
    var cut := Cut(collapsed, maxLength);
    var head := TrimEnd(collapsed[..cut], {SPACE, COMMA});
    assert IsExcerpt(collapsed, maxLength, head);
    ExcerptIsTidy(text, maxLength, head);
    if ValidUtf8(text) {
      ExcerptIsValidUtf8(text, maxLength, head);
    }
    title := head + ELLIPSIS;
  }
}
