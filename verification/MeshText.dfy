/** The text side of the mesh tools: lines, words, decimal integers, slash-separated indices. */
module MeshText {
  import opened Wrappers

  // What str.split() without arguments treats as a separator.
  predicate Space(c: char) {
    '\t' <= c <= '\r' || '\U{001C}' <= c <= ' ' || c == '\U{0085}' || c == '\U{00A0}' || c == '\U{1680}'
    || '\U{2000}' <= c <= '\U{200A}' || c == '\U{2028}' || c == '\U{2029}' || c == '\U{202F}'
    || c == '\U{205F}' || c == '\U{3000}'
  }

  // Universal newlines: "\r\n" gives one empty line more here, which has no words and is skipped.
  predicate LineEnd(c: char) { c == '\n' || c == '\r' }

  function UpTo(s: string, stop: char -> bool): (n: nat)
    ensures n <= |s| && (n < |s| ==> stop(s[n]))
    ensures forall i :: 0 <= i < n ==> !stop(s[i])
  {
    if s == [] || stop(s[0]) then 0 else 1 + UpTo(s[1..], stop)
  }

  function Lines(text: string): seq<string>
    decreases |text|
  {
    if text == [] then []
    else
      var n := UpTo(text, LineEnd);
      if n == |text| then [text] else [text[..n]] + Lines(text[n + 1..])
  }

  function Words(line: string): (w: seq<string>)
    ensures forall i :: 0 <= i < |w| ==> w[i] != []
    decreases |line|
  {
    if line == [] then []
    else if Space(line[0]) then Words(line[1..])
    else
      var n := UpTo(line, Space);
      [line[..n]] + Words(line[n..])
  }

  predicate Slash(c: char) { c == '/' }

  predicate Field(s: string) { forall i :: 0 <= i < |s| ==> !Slash(s[i]) }

  function SplitSlash(s: string): (f: seq<string>)
    ensures f != []
    decreases |s|
  {
    var n := UpTo(s, Slash);
    if n == |s| then [s] else [s[..n]] + SplitSlash(s[n + 1..])
  }

  predicate Digit(c: char) { '0' <= c <= '9' }

  // Decimal digits; a single underscore may stand between two digits.
  function ParseNat(s: string): Option<int>
    decreases |s|
  {
    if s == [] || !Digit(s[|s| - 1]) then None
    else
      var d := s[|s| - 1] as int - '0' as int;
      if |s| == 1 then Some(d)
      else
        match ParseNat(if s[|s| - 2] == '_' then s[..|s| - 2] else s[..|s| - 1])
        case None => None
        case Some(n) => Some(10 * n + d)
  }

  function ParseInt(s: string): Option<int> {
    if s != [] && s[0] == '-' then
      match ParseNat(s[1..]) case None => None case Some(n) => Some(-n)
    else
      match ParseNat(if s != [] && s[0] == '+' then s[1..] else s) case None => None case Some(n) => Some(n)
  }

  function PrintNat(n: nat): (s: string)
    ensures s != [] && forall i :: 0 <= i < |s| ==> Digit(s[i])
  {
    var d := ['0' + (n % 10) as char];
    if n < 10 then d else PrintNat(n / 10) + d
  }

  function PrintInt(n: int): (s: string)
    ensures s != [] && forall i :: 0 <= i < |s| ==> Digit(s[i]) || s[i] == '-'
  {
    if n < 0 then "-" + PrintNat(-n) else PrintNat(n)
  }

  lemma {:induction false} ParsePrintNat(n: nat)
    ensures ParseNat(PrintNat(n)) == Some(n)
  {
    var s := PrintNat(n);
    assert s[|s| - 1] as int - '0' as int == n % 10;
    if n >= 10 {
      ParsePrintNat(n / 10);
      assert s[..|s| - 1] == PrintNat(n / 10);
      assert Digit(s[|s| - 2]);
    }
  }

  lemma ParsePrintInt(n: int)
    ensures ParseInt(PrintInt(n)) == Some(n)
  {
    if n < 0 {
      assert PrintInt(n)[1..] == PrintNat(-n);
      ParsePrintNat(-n);
    } else {
      assert Digit(PrintNat(n)[0]);
      ParsePrintNat(n);
    }
  }

  // The sign is printed for negative numbers only, and no number starts with a needless zero.
  lemma {:induction false} PrintIntStarts(n: int)
    ensures PrintInt(n)[0] == '-' <==> n < 0
    ensures n >= 0 ==> (PrintInt(n)[0] == '0' <==> n == 0)
    decreases if n < 0 then 1 - n else n
  {
    if n < 0 {
    } else {
      assert Digit(PrintInt(n)[0]);
      if n >= 10 {
        PrintIntStarts(n / 10);
        assert PrintInt(n)[0] == PrintInt(n / 10)[0];
      }
    }
  }

  // A non-empty string that str.split() keeps in one piece.
  predicate Token(s: string) { s != [] && forall i :: 0 <= i < |s| ==> !Space(s[i]) }

  predicate OneLine(s: string) { forall i :: 0 <= i < |s| ==> !LineEnd(s[i]) }

  lemma {:induction false} UpToIs(s: string, n: nat, stop: char -> bool)
    requires n <= |s| && (n < |s| ==> stop(s[n]))
    requires forall i :: 0 <= i < n ==> !stop(s[i])
    ensures UpTo(s, stop) == n
  {
    if n > 0 {
      UpToIs(s[1..], n - 1, stop);
    }
  }

  lemma WordsToken(t: string, rest: string)
    requires Token(t) && (rest == [] || Space(rest[0]))
    ensures Words(t + rest) == [t] + Words(rest)
  {
    var s := t + rest;
    UpToIs(s, |t|, Space);
    assert s[..|t|] == t && s[|t|..] == rest;
  }

  function JoinWords(words: seq<string>): string {
    if words == [] then "" else if |words| == 1 then words[0] else words[0] + " " + JoinWords(words[1..])
  }

  lemma {:induction false} WordsJoin(words: seq<string>)
    requires forall i :: 0 <= i < |words| ==> Token(words[i])
    ensures Words(JoinWords(words)) == words
  {
    if words == [] {
    } else if |words| == 1 {
      WordsToken(words[0], "");
      assert words[0] + "" == words[0];
    } else {
      var rest := JoinWords(words[1..]);
      WordsJoin(words[1..]);
      WordsSpace(rest);
      hide Words;
      WordsToken(words[0], " " + rest);
      assert words[0] + " " + rest == words[0] + (" " + rest);
    }
  }

  lemma WordsSpace(rest: string)
    ensures Words(" " + rest) == Words(rest)
  {
    assert (" " + rest)[1..] == rest;
  }

  function JoinLines(lines: seq<string>): string {
    if lines == [] then "" else JoinLines(lines[..|lines| - 1]) + lines[|lines| - 1] + "\n"
  }

  lemma {:induction false} LinesFirst(line: string, rest: string)
    requires OneLine(line)
    ensures Lines(line + "\n" + rest) == [line] + Lines(rest)
  {
    var s := line + "\n" + rest;
    UpToIs(s, |line|, LineEnd);
    assert s[..|line|] == line && s[|line| + 1..] == rest;
  }

  lemma {:induction false} LinesJoinMore(lines: seq<string>, rest: string)
    requires forall i :: 0 <= i < |lines| ==> OneLine(lines[i])
    ensures Lines(JoinLines(lines) + rest) == lines + Lines(rest)
    decreases |lines|
  {
    hide Lines;
    if lines == [] {
      assert "" + rest == rest;
    } else {
      var n := |lines| - 1;
      LinesFirst(lines[n], rest);
      LinesJoinMore(lines[..n], lines[n] + "\n" + rest);
      assert JoinLines(lines) + rest == JoinLines(lines[..n]) + (lines[n] + "\n" + rest);
    }
  }

  lemma LinesJoin(lines: seq<string>)
    requires forall i :: 0 <= i < |lines| ==> OneLine(lines[i])
    ensures Lines(JoinLines(lines)) == lines
  {
    LinesJoinMore(lines, "");
    assert JoinLines(lines) + "" == JoinLines(lines);
  }

  lemma SplitSlashFirst(a: string, rest: string)
    requires Field(a)
    ensures SplitSlash(a + "/" + rest) == [a] + SplitSlash(rest)
  {
    var s := a + "/" + rest;
    UpToIs(s, |a|, Slash);
    assert s[..|a|] == a && s[|a| + 1..] == rest;
  }

  lemma SplitSlashThree(a: string, b: string, c: string)
    requires Field(a) && Field(b) && Field(c)
    ensures SplitSlash(a + "/" + (b + "/" + c)) == [a, b, c]
  {
    assert SplitSlash(c) == [c] by { UpToIs(c, |c|, Slash); }
    hide SplitSlash;
    SplitSlashFirst(b, c);
    SplitSlashFirst(a, b + "/" + c);
  }

  // What int() accepts, stated without the reader's recursion: digits, with single underscores between digits.

  predicate Numeral(s: string) {
    && s != [] && Digit(s[0]) && Digit(s[|s| - 1])
    && (forall i :: 0 <= i < |s| ==> Digit(s[i]) || s[i] == '_')
    && forall i :: 0 < i < |s| ==> Digit(s[i - 1]) || Digit(s[i])
  }

  function DigitValue(c: char): nat
    requires Digit(c)
  {
    c as int - '0' as int
  }

  // The digits of s, without the underscores, from the left.
  function Value(n: nat, s: string): nat
    decreases |s|
  {
    if s == [] then n
    else if Digit(s[0]) then Value(10 * n + DigitValue(s[0]), s[1..])
    else Value(n, s[1..])
  }

  lemma {:induction false} ValueSnoc(n: nat, s: string, c: char)
    ensures Value(n, s + [c]) == if Digit(c) then 10 * Value(n, s) + DigitValue(c) else Value(n, s)
    decreases |s|
  {
    if s == [] {
      assert s + [c] == [c];
    } else {
      assert (s + [c])[1..] == s[1..] + [c];
      ValueSnoc(if Digit(s[0]) then 10 * n + DigitValue(s[0]) else n, s[1..], c);
    }
  }

  lemma NumeralFront(s: string)
    requires |s| > 1 && Digit(s[|s| - 1])
    ensures Numeral(s) <==> Numeral(if s[|s| - 2] == '_' then s[..|s| - 2] else s[..|s| - 1])
  {
    var n := if s[|s| - 2] == '_' then |s| - 2 else |s| - 1;
    var front := s[..n];
    if Numeral(front) {
      assert forall i :: 0 <= i < n ==> s[i] == front[i];
      assert Digit(front[|front| - 1]);
    }
  }

  lemma {:induction false} ParseNatExactly(s: string)
    ensures ParseNat(s) == if Numeral(s) then Some(Value(0, s)) else None
    decreases |s|
  {
    if s == [] || !Digit(s[|s| - 1]) {
    } else if |s| == 1 {
      assert Value(0, s) == Value(DigitValue(s[0]), s[1..]);
    } else {
      var n := |s| - 1;
      var front := if s[n - 1] == '_' then s[..n - 1] else s[..n];
      NumeralFront(s);
      hide Numeral;
      ParseNatExactly(front);
      assert s == s[..n] + [s[n]];
      ValueSnoc(0, s[..n], s[n]);
      if s[n - 1] == '_' {
        assert s[..n] == front + ['_'];
        ValueSnoc(0, front, '_');
      }
    }
  }

  lemma NumeralIsBare(s: string)
    requires Numeral(s)
    ensures s != [] && s[0] != '-' && s[0] != '+'
  {
  }

  // One sign may stand in front.
  lemma ParseIntExactly(s: string)
    ensures Numeral(s) ==> ParseInt(s) == Some(Value(0, s) as int)
    ensures s != [] && s[0] == '+' ==> ParseInt(s) == if Numeral(s[1..]) then Some(Value(0, s[1..]) as int) else None
    ensures s != [] && s[0] == '-' ==>
              ParseInt(s) == if Numeral(s[1..]) then Some(0 - Value(0, s[1..]) as int) else None
    ensures ParseInt(s).Some? ==> Numeral(s) || (s != [] && (s[0] == '+' || s[0] == '-'))
  {
    ParseNatExactly(s);
    if s != [] {
      ParseNatExactly(s[1..]);
    }
    if Numeral(s) {
      NumeralIsBare(s);
    }
    hide Value, ParseNat, Numeral;
  }
}
