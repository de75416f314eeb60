// The string operations of Python that the parsers and the queue rely on.
module Texts {
  // The characters at which str.splitlines ends a line.
  predicate IsLineBreak(c: char) {
    || '\n' <= c <= '\r' || '\U{1C}' <= c <= '\U{1E}' || c == '\U{85}'
    || c == '\U{2028}' || c == '\U{2029}'
  }

  predicate SingleLine(text: string) {
    forall i :: 0 <= i < |text| ==> !IsLineBreak(text[i])
  }

  function LineEnd(text: string): (n: nat)
    ensures n <= |text|
    ensures SingleLine(text[..n])
    ensures n < |text| ==> IsLineBreak(text[n])
  {
    if text == [] || IsLineBreak(text[0]) then 0
    else
      var n := LineEnd(text[1..]);
      assert text[..n + 1] == [text[0]] + text[1..][..n];
      n + 1
  }

  // str.splitlines
  function SplitLines(text: string): seq<string>
    decreases |text|
  {
    if text == [] then []
    else
      var n := LineEnd(text);
      if n == |text| then [text]
      else
        var next := if text[n] == '\r' && n + 1 < |text| && text[n + 1] == '\n' then n + 2 else n + 1;
        [text[..n]] + SplitLines(text[next..])
  }

  // The characters one by one.
  lemma LineBreakIff(c: char)
    ensures IsLineBreak(c) <==>
              c in {'\n', '\U{0B}', '\U{0C}', '\r', '\U{1C}', '\U{1D}', '\U{1E}', '\U{85}', '\U{2028}', '\U{2029}'}
  {
  }

  lemma {:induction false} LineEndOf(line: string, rest: string)
    requires SingleLine(line) && (rest == "" || IsLineBreak(rest[0]))
    ensures LineEnd(line + rest) == |line|
  {
    var text := line + rest;
    if line != [] {
      assert text[1..] == line[1..] + rest && text[0] == line[0];
      LineEndOf(line[1..], rest);
    } else {
      assert text == rest;
    }
  }

  // What is split off first: the text up to a line break, which is one character
  // or a carriage return with its newline. A last line needs no break.
  lemma SplitLinesFirst(line: string, c: char, rest: string)
    requires SingleLine(line) && IsLineBreak(c)
    ensures SplitLines(line) == if line == "" then [] else [line]
    ensures SplitLines(line + [c] + rest)
         == [line] + SplitLines(if c == '\r' && rest != "" && rest[0] == '\n' then rest[1..] else rest)
  {
    LineEndOf(line, "");
    assert line + "" == line && line[..|line|] == line;
    var text := line + [c] + rest;
    assert text == line + ([c] + rest);
    LineEndOf(line, [c] + rest);
    assert text[..|line|] == line && text[|line|] == c && text[|line| + 1..] == rest;
    if c == '\r' && rest != "" && rest[0] == '\n' {
      assert text[|line| + 1] == '\n' && text[|line| + 2..] == rest[1..];
    }
  }

  // Every line followed by a newline, as the queue file stores it.
  function JoinLines(lines: seq<string>): string {
    if lines == [] then "" else lines[0] + "\n" + JoinLines(lines[1..])
  }

  lemma {:induction false} JoinAppend(a: seq<string>, b: seq<string>)
    ensures JoinLines(a + b) == JoinLines(a) + JoinLines(b)
  {
    if a == [] {
      assert a + b == b;
    } else {
      JoinAppend(a[1..], b);
      assert (a + b)[1..] == a[1..] + b;
    }
  }

  lemma {:induction false} LineEndOfLine(line: string, rest: string)
    requires SingleLine(line)
    ensures LineEnd(line + "\n" + rest) == |line|
  {
    var text := line + "\n" + rest;
    if line != [] {
      LineEndOfLine(line[1..], rest);
      assert text[1..] == line[1..] + "\n" + rest;
      assert !IsLineBreak(text[0]);
    }
  }

  lemma SplitFirst(line: string, rest: string)
    requires SingleLine(line)
    ensures SplitLines(line + "\n" + rest) == [line] + SplitLines(rest)
  {
    var text := line + "\n" + rest;
    LineEndOfLine(line, rest);
    assert text[|line|] == '\n';
    assert text[..|line|] == line;
    assert text[|line| + 1..] == rest;
  }

  // Splitting undoes joining, for lines without a line break of their own.
  lemma {:induction false} SplitJoin(lines: seq<string>)
    requires forall i :: 0 <= i < |lines| ==> SingleLine(lines[i])
    ensures SplitLines(JoinLines(lines)) == lines
  {
    if lines != [] {
      SplitFirst(lines[0], JoinLines(lines[1..]));
      SplitJoin(lines[1..]);
      assert JoinLines(lines) == lines[0] + "\n" + JoinLines(lines[1..]);
    }
  }

  // ------------------------------------------------------------ white space

  predicate IsSpace(c: char) {
    || c == ' ' || '\t' <= c <= '\r' || '\U{1C}' <= c <= '\U{1F}' || c == '\U{85}' || c == '\U{A0}'
    || c == '\U{1680}' || '\U{2000}' <= c <= '\U{200A}' || c == '\U{2028}' || c == '\U{2029}'
    || c == '\U{202F}' || c == '\U{205F}' || c == '\U{3000}'
  }

  // Every line break is white space, and these are besides.
  lemma SpaceIff(c: char)
    ensures IsSpace(c) <==>
              || IsLineBreak(c) || c in {'\t', ' ', '\U{1F}', '\U{A0}', '\U{1680}', '\U{202F}', '\U{205F}', '\U{3000}'}
              || 0x2000 <= c as int <= 0x200A
  {
  }

  predicate Blank(text: string) {
    forall i :: 0 <= i < |text| ==> IsSpace(text[i])
  }

  function StripLeft(text: string): string {
    if text != [] && IsSpace(text[0]) then StripLeft(text[1..]) else text
  }

  function StripRight(text: string): string {
    if text != [] && IsSpace(text[|text| - 1]) then StripRight(text[..|text| - 1]) else text
  }

  // str.strip
  function Strip(text: string): string {
    StripRight(StripLeft(text))
  }

  // A text that strip leaves alone.
  predicate Trimmed(text: string) {
    text != [] && !IsSpace(text[0]) && !IsSpace(text[|text| - 1])
  }

  lemma {:induction false} StripLeftPad(pad: string, text: string)
    requires Blank(pad) && (text == [] || !IsSpace(text[0]))
    ensures StripLeft(pad + text) == text
  {
    if pad == [] {
      assert pad + text == text;
    } else {
      assert (pad + text)[1..] == pad[1..] + text;
      assert (pad + text)[0] == pad[0];
      StripLeftPad(pad[1..], text);
    }
  }

  lemma {:induction false} StripRightPad(text: string, pad: string)
    requires Blank(pad) && (text == [] || !IsSpace(text[|text| - 1]))
    ensures StripRight(text + pad) == text
  {
    if pad == [] {
      assert text + pad == text;
    } else {
      assert (text + pad)[..|text + pad| - 1] == text + pad[..|pad| - 1];
      StripRightPad(text, pad[..|pad| - 1]);
    }
  }

  lemma StripPadded(left: string, text: string, right: string)
    requires Blank(left) && Blank(right) && Trimmed(text)
    ensures Strip(left + text + right) == text
  {
    assert left + text + right == left + (text + right);
    StripLeftPad(left, text + right);
    StripRightPad(text, right);
  }

  lemma {:induction false} StripRightNotBlank(text: string, i: nat)
    requires i < |text| && !IsSpace(text[i])
    ensures StripRight(text) != ""
  {
    if IsSpace(text[|text| - 1]) {
      StripRightNotBlank(text[..|text| - 1], i);
    }
  }

  lemma {:induction false} StripNotBlank(text: string, i: nat)
    requires i < |text| && !IsSpace(text[i])
    ensures Strip(text) != ""
  {
    if IsSpace(text[0]) {
      StripNotBlank(text[1..], i - 1);
    } else {
      StripRightNotBlank(text, i);
    }
  }

  // Together with StripPadded this says what strip makes of any text.
  lemma StripIff(text: string)
    ensures Strip(text) == "" <==> Blank(text)
    ensures Blank(text) || exists left, right :: Blank(left) && Blank(right) && text == left + Strip(text) + right
    ensures Blank(text) || Trimmed(Strip(text))
  {
    var left := StripLeftParts(text);
    var right := StripRightParts(StripLeft(text));
    if i :| 0 <= i < |text| && !IsSpace(text[i]) {
      StripNotBlank(text, i);
    }
    assert text == left + Strip(text) + right;
    if Strip(text) == "" {
      assert StripLeft(text) == "" && text == left;
    } else {
      assert text[|left|] == StripLeft(text)[0];
    }
  }

  lemma {:induction false} StripLeftParts(text: string) returns (left: string)
    ensures Blank(left) && text == left + StripLeft(text)
    ensures StripLeft(text) == "" || !IsSpace(StripLeft(text)[0])
  {
    if text != [] && IsSpace(text[0]) {
      var l := StripLeftParts(text[1..]);
      left := [text[0]] + l;
    } else {
      left := "";
    }
  }

  lemma {:induction false} StripRightParts(text: string) returns (right: string)
    ensures Blank(right) && text == StripRight(text) + right
    ensures StripRight(text) == "" || (!IsSpace(StripRight(text)[|StripRight(text)| - 1]) && StripRight(text)[0] == text[0])
  {
    if text != [] && IsSpace(text[|text| - 1]) {
      var r := StripRightParts(text[..|text| - 1]);
      right := r + [text[|text| - 1]];
    } else {
      right := "";
    }
  }

  // ------------------------------------------------------------------- words

  predicate IsWord(text: string) {
    text != [] && forall i :: 0 <= i < |text| ==> !IsSpace(text[i])
  }

  function WordEnd(text: string): (n: nat)
    ensures n <= |text|
    ensures text != [] && !IsSpace(text[0]) ==> n > 0
  {
    if text == [] || IsSpace(text[0]) then 0 else WordEnd(text[1..]) + 1
  }

  // str.split without an argument
  function Words(text: string): seq<string>
    decreases |text|
  {
    if text == [] then []
    else if IsSpace(text[0]) then Words(text[1..])
    else
      var n := WordEnd(text);
      [text[..n]] + Words(text[n..])
  }

  // " ".join
  function Spaced(words: seq<string>): string {
    if words == [] then ""
    else if |words| == 1 then words[0]
    else words[0] + " " + Spaced(words[1..])
  }

  lemma {:induction false} WordEndOfWord(w: string, rest: string)
    requires IsWord(w) && (rest == [] || IsSpace(rest[0]))
    ensures WordEnd(w + rest) == |w|
  {
    assert (w + rest)[0] == w[0];
    assert (w + rest)[1..] == w[1..] + rest;
    if |w| == 1 {
      assert w[1..] + rest == rest;
    } else {
      WordEndOfWord(w[1..], rest);
    }
  }

  lemma FirstWord(w: string, rest: string)
    requires IsWord(w) && (rest == [] || IsSpace(rest[0]))
    ensures Words(w + rest) == [w] + Words(rest)
  {
    WordEndOfWord(w, rest);
    assert (w + rest)[0] == w[0];
    assert (w + rest)[..|w|] == w;
    assert (w + rest)[|w|..] == rest;
  }

  // Words are what white space of any kind and length leaves.
  lemma {:induction false} NextWord(pad: string, w: string, rest: string)
    requires Blank(pad) && IsWord(w) && (rest == [] || IsSpace(rest[0]))
    ensures Words(pad) == [] && Words(pad + w + rest) == [w] + Words(rest)
  {
    if pad == [] {
      assert pad + w + rest == w + rest;
      FirstWord(w, rest);
    } else {
      assert (pad + w + rest)[1..] == pad[1..] + w + rest && (pad + w + rest)[0] == pad[0];
      NextWord(pad[1..], w, rest);
    }
  }

  // Splitting undoes joining.
  lemma {:induction false} WordsOfSpaced(words: seq<string>)
    requires forall i :: 0 <= i < |words| ==> IsWord(words[i])
    ensures Words(Spaced(words)) == words
  {
    if |words| == 1 {
      FirstWord(words[0], "");
      assert words[0] + "" == words[0];
    } else if |words| > 1 {
      var rest := Spaced(words[1..]);
      WordsOfSpaced(words[1..]);
      assert words[0] + " " + rest == words[0] + (" " + rest);
      FirstWord(words[0], " " + rest);
      assert (" " + rest)[1..] == rest;
    }
  }

  lemma {:induction false} SpacedTrimmed(words: seq<string>)
    requires words != [] && forall i :: 0 <= i < |words| ==> IsWord(words[i])
    ensures Trimmed(Spaced(words))
    ensures |words| > 1 ==> words[0] + " " <= Spaced(words)
  {
    if |words| > 1 {
      SpacedTrimmed(words[1..]);
    }
  }

  // ---------------------------------------------------------------- sections

  predicate Lacks(text: string, c: char) {
    forall i :: 0 <= i < |text| ==> text[i] != c
  }

  function IndexOf(text: string, c: char): (n: nat)
    ensures n <= |text|
    ensures n < |text| ==> text[n] == c
  {
    if text == [] || text[0] == c then 0 else IndexOf(text[1..], c) + 1
  }

  // str.split on a one-character separator
  function SplitOn(text: string, c: char): seq<string>
    decreases |text|
  {
    var n := IndexOf(text, c);
    if n == |text| then [text] else [text[..n]] + SplitOn(text[n + 1..], c)
  }

  function JoinOn(parts: seq<string>, c: char): string {
    if parts == [] then ""
    else if |parts| == 1 then parts[0]
    else parts[0] + [c] + JoinOn(parts[1..], c)
  }

  lemma {:induction false} IndexOfPart(part: string, c: char, rest: string)
    requires Lacks(part, c) && (rest == [] || rest[0] == c)
    ensures IndexOf(part + rest, c) == |part|
  {
    if part == [] {
      assert part + rest == rest;
    } else {
      assert (part + rest)[1..] == part[1..] + rest;
      IndexOfPart(part[1..], c, rest);
    }
  }

  lemma {:induction false} SplitOnJoin(parts: seq<string>, c: char)
    requires parts != [] && forall i :: 0 <= i < |parts| ==> Lacks(parts[i], c)
    ensures SplitOn(JoinOn(parts, c), c) == parts
  {
    if |parts| == 1 {
      IndexOfPart(parts[0], c, "");
      assert parts[0] + "" == parts[0];
    } else {
      var rest := JoinOn(parts[1..], c);
      SplitOnJoin(parts[1..], c);
      assert parts[0] + [c] + rest == parts[0] + ([c] + rest);
      IndexOfPart(parts[0], c, [c] + rest);
      var text := parts[0] + ([c] + rest);
      assert text[..|parts[0]|] == parts[0];
      assert text[|parts[0]| + 1..] == rest;
    }
  }

  // part in text
  predicate Contains(text: string, part: string) {
    exists i :: 0 <= i <= |text| && part <= text[i..]
  }

  // The part stands somewhere in the text.
  lemma ContainsIff(text: string, part: string)
    ensures Contains(text, part) <==> exists before, after :: text == before + part + after
  {
    if i :| 0 <= i <= |text| && part <= text[i..] {
      assert text == text[..i] + part + text[i..][|part|..];
    }
    if before, after :| text == before + part + after {
      assert text[|before|..] == part + after;
    }
  }

  function LowerChar(c: char): char {
    if 'A' <= c <= 'Z' then c - 'A' + 'a' else c
  }

  // str.lower on ASCII
  function Lower(text: string): string {
    seq(|text|, i requires 0 <= i < |text| => LowerChar(text[i]))
  }

  // The capitals become small, place by place; nothing else changes.
  lemma LowerIs(text: string, i: nat)
    requires i < |text|
    ensures |Lower(text)| == |text|
    ensures 'A' <= text[i] <= 'Z' ==> Lower(text)[i] as int == text[i] as int + 32
    ensures !('A' <= text[i] <= 'Z') ==> Lower(text)[i] == text[i]
  {
  }
}
