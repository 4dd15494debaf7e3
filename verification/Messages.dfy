/** The text messages of lab2/rfss.c: how they are printed, and how the receiver splits them up with
    strtok and reads numbers with atoi. */
module Messages {
  import opened Protocol

  // ---------- Numbers ----------

  predicate IsDigit(c: char) {
    '0' <= c <= '9'
  }

  function Digit(d: nat): (c: char)
    requires d < 10
    ensures IsDigit(c) && c as int - '0' as int == d
  {
    '0' + d as char
  }

  /** printf with %d, for numbers that are not negative. */
  function Dec(n: nat): (s: string)
    ensures s != [] && forall i :: 0 <= i < |s| ==> IsDigit(s[i])
  {
    if n < 10 then [Digit(n)] else Dec(n / 10) + [Digit(n % 10)]
  }

  function Value(s: string): nat
    requires forall i :: 0 <= i < |s| ==> IsDigit(s[i])
  {
    if s == [] then 0
    else
      assert IsDigit(s[|s| - 1]);
      10 * Value(s[..|s| - 1]) + (s[|s| - 1] as int - '0' as int)
  }

  function DigitCount(s: string): (k: nat)
    ensures k <= |s| && (forall i :: 0 <= i < k ==> IsDigit(s[i])) && (k < |s| ==> !IsDigit(s[k]))
  {
    if s == [] || !IsDigit(s[0]) then 0
    else
      var k := DigitCount(s[1..]);
      assert forall i :: 0 < i < k + 1 ==> s[i] == s[1..][i - 1];
      k + 1
  }

  predicate Blank(c: char) {
    c == ' ' || '\t' <= c <= '\r'
  }

  /** atoi: blanks, an optional sign, then as many digits as there are. */
  function Atoi(s: string): int {
    if s == [] then 0
    else if Blank(s[0]) then Atoi(s[1..])
    else if s[0] == '-' then 0 - (Value(s[1..][..DigitCount(s[1..])]) as int)
    else if s[0] == '+' then Value(s[1..][..DigitCount(s[1..])])
    else Value(s[..DigitCount(s)])
  }

  lemma {:induction false} ValueOfDec(n: nat)
    ensures Value(Dec(n)) == n
  {
    if n >= 10 {
      ValueOfDec(n / 10);
    }
  }

  lemma AtoiOfDec(n: nat)
    ensures Atoi(Dec(n)) == n
  {
    var s := Dec(n);
    ValueOfDec(n);
    assert IsDigit(s[0]);
    assert s[..DigitCount(s)] == s;
  }

  /** printf gives no leading zeros: of the texts that stand for a number it gives the only one without. */
  lemma {:induction false} DecOfValue(s: string)
    requires s != [] && (forall i :: 0 <= i < |s| ==> IsDigit(s[i])) && (|s| > 1 ==> s[0] != '0')
    ensures Dec(Value(s)) == s
    ensures |s| > 1 ==> Value(s) >= 10
  {
    var front, d := s[..|s| - 1], s[|s| - 1];
    assert IsDigit(d) && s == front + [d];
    if front != [] {
      assert IsDigit(front[0]);
      DecOfValue(front);
      assert |front| == 1 ==> Value(front) == front[0] as int - '0' as int by {
        assert |front| == 1 ==> front[..|front| - 1] == [];
      }
    }
  }

  lemma DigitCountIs(s: string, k: nat)
    requires k <= |s| && (forall i :: 0 <= i < k ==> IsDigit(s[i])) && (k < |s| ==> !IsDigit(s[k]))
    ensures DigitCount(s) == k
  {
  }

  lemma DigitsEnd(n: nat, rest: string)
    requires rest != [] ==> !IsDigit(rest[0])
    ensures DigitCount(Dec(n) + rest) == |Dec(n)| && Value((Dec(n) + rest)[..|Dec(n)|]) == n
  {
    var s := Dec(n) + rest;
    ValueOfDec(n);
    assert s[..|Dec(n)|] == Dec(n);
    DigitCountIs(s, |Dec(n)|);
  }

  lemma {:induction false} AtoiSkipsBlanks(blanks: string, s: string)
    requires forall i :: 0 <= i < |blanks| ==> blanks[i] == ' ' || 9 <= blanks[i] as int <= 13
    ensures Atoi(blanks + s) == Atoi(s)
  {
    if blanks == [] {
      assert blanks + s == s;
    } else {
      assert Blank(blanks[0]) && (blanks + s)[1..] == blanks[1..] + s;
      AtoiSkipsBlanks(blanks[1..], s);
    }
  }

  lemma AtoiUnsigned(digits: string, rest: string, n: nat)
    requires digits != [] && IsDigit(digits[0]) && DigitCount(digits + rest) == |digits|
    requires Value((digits + rest)[..|digits|]) == n
    ensures Atoi(digits + rest) == n
    ensures Atoi("+" + (digits + rest)) == n && Atoi("-" + (digits + rest)) == -(n as int)
  {
    assert ("+" + (digits + rest))[1..] == digits + rest && ("-" + (digits + rest))[1..] == digits + rest;
  }

  /** atoi skips spaces and the characters from tab to carriage return, heeds a sign, and stops at the first
      character that is no digit. */
  lemma AtoiReads(blanks: string, n: nat, rest: string)
    requires forall i :: 0 <= i < |blanks| ==> blanks[i] == ' ' || 9 <= blanks[i] as int <= 13
    requires rest != [] ==> !IsDigit(rest[0])
    ensures Atoi(blanks + (Dec(n) + rest)) == n
    ensures Atoi(blanks + ("+" + (Dec(n) + rest))) == n
    ensures Atoi(blanks + ("-" + (Dec(n) + rest))) == -(n as int)
  {
    DigitsEnd(n, rest);
    AtoiUnsigned(Dec(n), rest, n);
    AtoiSkipsBlanks(blanks, Dec(n) + rest);
    AtoiSkipsBlanks(blanks, "+" + (Dec(n) + rest));
    AtoiSkipsBlanks(blanks, "-" + (Dec(n) + rest));
  }

  function Pow10(k: nat): (p: nat)
    ensures p > 0
  {
    if k == 0 then 1 else 10 * Pow10(k - 1)
  }

  lemma {:induction false} DecLength(n: nat, digits: nat, limit: nat)
    requires n < limit && digits > 0 && limit == Pow10(digits)
    ensures |Dec(n)| <= digits
  {
    if n >= 10 {
      DecLength(n / 10, digits - 1, Pow10(digits - 1));
    }
  }

  lemma {:induction false} ValueBelow(s: string)
    requires forall i :: 0 <= i < |s| ==> IsDigit(s[i])
    ensures Value(s) < Pow10(|s|)
  {
    if s != [] {
      assert IsDigit(s[|s| - 1]);
      ValueBelow(s[..|s| - 1]);
    }
  }

  lemma DigitsNeedRoom(s: string, n: nat)
    requires s != [] && Value(s[..DigitCount(s)]) == n
    ensures |Dec(n)| <= |s|
  {
    var k := DigitCount(s);
    ValueBelow(s[..k]);
    if k > 0 {
      DecLength(n, k, Pow10(k));
    }
  }

  /** No shorter text stands for n than the one that printf gives. */
  lemma {:induction false} AtoiNeedsRoom(s: string, n: nat)
    requires s != [] && Atoi(s) == n
    ensures |Dec(n)| <= |s|
  {
    if Blank(s[0]) {
      if |s| > 1 {
        AtoiNeedsRoom(s[1..], n);
      }
    } else if s[0] == '-' || s[0] == '+' {
      if |s| > 1 && s[0] == '+' {
        DigitsNeedRoom(s[1..], n);
      }
    } else {
      DigitsNeedRoom(s, n);
    }
  }

  // ---------- Tokens ----------

  /** A word that strtok can give back: not empty and without spaces. */
  predicate Clean(w: string) {
    w != [] && forall i :: 0 <= i < |w| ==> w[i] != ' '
  }

  function WordLength(s: string): (k: nat)
    ensures k <= |s| && (forall i :: 0 <= i < k ==> s[i] != ' ') && (k < |s| ==> s[k] == ' ')
  {
    if s == [] || s[0] == ' ' then 0
    else
      var k := WordLength(s[1..]);
      assert forall i :: 0 < i < k + 1 ==> s[i] == s[1..][i - 1];
      k + 1
  }

  /** All words that repeated calls of strtok find. */
  function Tokens(s: string): (ws: seq<string>)
    ensures forall i :: 0 <= i < |ws| ==> Clean(ws[i])
    decreases |s|
  {
    if s == [] then []
    else if s[0] == ' ' then Tokens(s[1..])
    else [s[..WordLength(s)]] + Tokens(s[WordLength(s)..])
  }

  /** The text without its spaces. */
  function Letters(s: string): string {
    if s == [] then [] else if s[0] == ' ' then Letters(s[1..]) else [s[0]] + Letters(s[1..])
  }

  function Concat(ws: seq<string>): string {
    if ws == [] then [] else ws[0] + Concat(ws[1..])
  }

  lemma {:induction false} LettersOfWord(s: string, k: nat)
    requires k <= |s| && forall i :: 0 <= i < k ==> s[i] != ' '
    ensures Letters(s) == s[..k] + Letters(s[k..])
  {
    if k == 0 {
      assert s[0..] == s;
    } else {
      LettersOfWord(s[1..], k - 1);
      assert s[1..][..k - 1] == s[1..k] && s[1..][k - 1..] == s[k..];
      assert [s[0]] + (s[1..k] + Letters(s[k..])) == s[..k] + Letters(s[k..]);
    }
  }

  /** The words have all characters of the text but its spaces, in their order. */
  lemma {:induction false} WordsKeepLetters(s: string)
    ensures Concat(Tokens(s)) == Letters(s)
    ensures forall w, i :: w in Tokens(s) && 0 <= i < |w| ==> w[i] != ' '
    decreases |s|
  {
    if s != [] {
      if s[0] == ' ' {
        WordsKeepLetters(s[1..]);
      } else {
        WordsKeepLetters(s[WordLength(s)..]);
        LettersOfWord(s, WordLength(s));
      }
    }
  }

  lemma WordLengthIs(s: string, k: nat)
    requires k <= |s| && (forall i :: 0 <= i < k ==> s[i] != ' ') && (k < |s| ==> s[k] == ' ')
    ensures WordLength(s) == k
  {
  }

  lemma FirstToken(w: string, rest: string)
    requires Clean(w) && (rest != [] ==> rest[0] == ' ')
    ensures Tokens(w + rest) == [w] + Tokens(rest)
  {
    var s := w + rest;
    WordLengthIs(s, |w|);
    assert s[..|w|] == w && s[|w|..] == rest;
  }

  lemma SpaceBeforeToken(w: string, rest: string)
    requires Clean(w) && (rest != [] ==> rest[0] == ' ')
    ensures Tokens(" " + w + rest) == [w] + Tokens(rest)
  {
    var s := " " + w + rest;
    assert s[1..] == w + rest;
    FirstToken(w, rest);
  }

  /** us are the first of the words ws, except that the last one of us may be cut short. */
  ghost predicate CutShort(us: seq<string>, ws: seq<string>) {
    && |us| <= |ws|
    && (forall i :: 0 <= i < |us| ==> us[i] <= ws[i])
    && (forall i :: 0 <= i < |us| - 1 ==> us[i] == ws[i])
  }

  lemma CutShortAfter(w: string, us: seq<string>, ws: seq<string>)
    requires CutShort(us, ws)
    ensures CutShort([w] + us, [w] + ws)
  {
  }

  /** The words of the beginning of a text. */
  lemma {:induction false} PrefixTokens(s: string, k: nat)
    requires k <= |s|
    ensures CutShort(Tokens(s[..k]), Tokens(s))
    decreases |s|
  {
    var m := WordLength(s);
    if k == 0 {
    } else if s[0] == ' ' {
      assert s[..k][1..] == s[1..][..k - 1];
      PrefixTokens(s[1..], k - 1);
    } else if k <= m {
      WordLengthIs(s[..k], k);
      assert s[..k][k..] == [] && s[..k][..k] == s[..k];
    } else {
      WordLengthIs(s[..k], m);
      assert s[..k][..m] == s[..m] && s[..k][m..] == s[m..][..k - m];
      PrefixTokens(s[m..], k - m);
      CutShortAfter(s[..m], Tokens(s[m..][..k - m]), Tokens(s[m..]));
    }
  }

  /** The words with one space between any two. */
  function Joined(ws: seq<string>): string {
    if ws == [] then [] else if |ws| == 1 then ws[0] else ws[0] + " " + Joined(ws[1..])
  }

  lemma JoinedMore(w: string, ws: seq<string>)
    requires ws != []
    ensures Joined([w] + ws) == w + " " + Joined(ws)
  {
    assert ([w] + ws)[1..] == ws;
  }

  lemma Regrouped(a: string, b: string, c: string)
    ensures a + b + c == a + (b + c)
  {
  }

  /** The words of a joined text are the words it was joined from, exactly when all of them are clean. */
  lemma {:induction false} JoinedWords(ws: seq<string>)
    ensures Tokens(Joined(ws)) == ws <==> forall i :: 0 <= i < |ws| ==> Clean(ws[i])
  {
    if ws != [] && forall i :: 0 <= i < |ws| ==> Clean(ws[i]) {
      JoinedWords(ws[1..]);
      if |ws| == 1 {
        FirstToken(ws[0], "");
        assert ws[0] + "" == ws[0];
      } else {
        FirstToken(ws[0], " " + Joined(ws[1..]));
        assert ws[0] + " " + Joined(ws[1..]) == ws[0] + (" " + Joined(ws[1..]));
        assert (" " + Joined(ws[1..]))[1..] == Joined(ws[1..]);
      }
    }
  }

  /** The length of the shortest text with these words. */
  function Room(ws: seq<string>): nat {
    if ws == [] then 0 else if |ws| == 1 then |ws[0]| else |ws[0]| + 1 + Room(ws[1..])
  }

  lemma RoomForThree(ws: seq<string>)
    requires |ws| >= 3
    ensures Room(ws) >= |ws[0]| + 1 + |ws[1]| + 1 + |ws[2]|
  {
  }

  lemma {:induction false} TokensNeedRoom(s: string)
    ensures Room(Tokens(s)) <= |s|
    decreases |s|
  {
    if s != [] {
      if s[0] == ' ' {
        TokensNeedRoom(s[1..]);
      } else {
        var rest := s[WordLength(s)..];
        assert Tokens(s)[1..] == Tokens(rest);
        if rest != [] {
          TokensNeedRoom(rest[1..]);
        }
      }
    }
  }

  /** The words of s are ws. */
  ghost predicate Splits(s: string, ws: seq<string>) {
    Tokens(s) == ws
  }

  lemma KeywordFirst(keyword: string, tail: string, words: seq<string>)
    requires Clean(keyword) && tail != [] && tail[0] == ' ' && Splits(tail, words)
    ensures Splits(keyword + tail, [keyword] + words)
  {
    FirstToken(keyword, tail);
  }

  lemma WordNext(word: string, rest: string, words: seq<string>)
    requires Clean(word) && (rest != [] ==> rest[0] == ' ') && Splits(rest, words)
    ensures Splits(" " + word + rest, [word] + words)
  {
    SpaceBeforeToken(word, rest);
  }

  lemma SpaceAt(s: string, i: nat)
    requires i < |s| && s[i] == ' '
    ensures Tokens(s[i..]) == Tokens(s[i + 1..])
  {
  }

  lemma WordAt(s: string, i: nat, j: nat)
    requires i < j <= |s| && (forall k :: i <= k < j ==> s[k] != ' ') && (j < |s| ==> s[j] == ' ')
    ensures Tokens(s[i..]) == [s[i..j]] + Tokens(s[j..])
  {
    assert s[i..] == s[i..j] + s[j..];
    FirstToken(s[i..j], s[j..]);
  }

  /** strtok keeps its place between calls. */
  class Tokenizer {
    const buffer: string
    var pos: nat

    ghost predicate Valid()
      reads this
    {
      pos <= |buffer|
    }

    /** The words not given out yet. */
    ghost function Left(): seq<string>
      requires Valid()
      reads this
    {
      Tokens(buffer[pos..])
    }

    constructor (buffer: string)
      ensures Valid() && Left() == Tokens(buffer)
    {
      this.buffer, pos := buffer, 0;
      new;
      assert buffer[0..] == buffer;
    }

    method SkipSpaces()
      requires Valid()
      modifies this
      ensures Valid() && Left() == old(Left())
      ensures pos < |buffer| ==> buffer[pos] != ' '
    {
      while pos < |buffer| && buffer[pos] == ' '
        invariant Valid() && Left() == old(Left())
      {
        SpaceAt(buffer, pos);
        pos := pos + 1;
      }
    }

    /** The word ends before a space, which is skipped with it, or at the end. */
    method TakeWord() returns (word: string)
      requires Valid() && pos < |buffer| && buffer[pos] != ' '
      modifies this
      ensures Valid() && old(Left()) == [word] + Left()
    {
      var start := pos;
      while pos < |buffer| && buffer[pos] != ' '
        invariant start <= pos <= |buffer|
        invariant forall i :: start <= i < pos ==> buffer[i] != ' '
      {
        pos := pos + 1;
      }
      WordAt(buffer, start, pos);
      word := buffer[start..pos];
      if pos < |buffer| {
        SpaceAt(buffer, pos);
        pos := pos + 1;
      }
    }

    method Next() returns (word: Option<string>)
      requires Valid()
      modifies this
      ensures Valid()
      ensures if old(Left()) == [] then word == None && Left() == []
              else word == Some(old(Left())[0]) && Left() == old(Left())[1..]
    {
      SkipSpaces();
      if pos == |buffer| {
        return None;
      }
      var w := TakeWord();
      word := Some(w);
    }
  }

  // ---------- The list of files ----------

  function Spaced(files: seq<string>): string {
    if files == [] then [] else Spaced(files[..|files| - 1]) + " " + files[|files| - 1]
  }

  const FILECOMING := "FILECOMING"
  const UPLOADTOU := "UPLOADTOU"

  /** A list of files under a keyword, which is FILECOMING in the program. */
  function FileList(keyword: string, files: seq<string>): string {
    keyword + " " + Dec(|files|) + Spaced(files)
  }

  /** The length of all names with a space before each. */
  function SpacedLength(files: seq<string>): nat {
    if files == [] then 0 else SpacedLength(files[..|files| - 1]) + 1 + |files[|files| - 1]|
  }

  lemma {:induction false} LengthOfSpaced(files: seq<string>)
    ensures |Spaced(files)| == SpacedLength(files)
  {
    if files != [] {
      LengthOfSpaced(files[..|files| - 1]);
    }
  }

  lemma {:induction false} ShortNames(files: seq<string>)
    requires forall i :: 0 <= i < |files| ==> |files[i]| <= 49
    ensures SpacedLength(files) <= |files| * 50
  {
    if files != [] {
      ShortNames(files[..|files| - 1]);
    }
  }

  lemma {:induction false} SpacedFromFront(files: seq<string>)
    requires files != []
    ensures Spaced(files) == " " + files[0] + Spaced(files[1..])
  {
    if |files| > 1 {
      SpacedFromFront(files[..|files| - 1]);
      assert files[..|files| - 1][1..] == files[1..][..|files| - 2];
    }
  }

  lemma {:induction false} SpacedIsJoined(w: string, files: seq<string>)
    ensures w + Spaced(files) == Joined([w] + files)
    decreases |files|
  {
    if files != [] {
      SpacedFromFront(files);
      SpacedIsJoined(files[0], files[1..]);
      assert [files[0]] + files[1..] == files;
      JoinedMore(w, files);
      assert w + Spaced(files) == w + " " + (files[0] + Spaced(files[1..]));
    } else {
      assert w + [] == w && [w] + files == [w];
    }
  }

  lemma TwoFirst(a: string, b: string, files: seq<string>)
    ensures [a] + ([b] + files) == [a, b] + files
  {
  }

  lemma TwoWordsJoined(keyword: string, word: string, files: seq<string>)
    ensures keyword + " " + word + Spaced(files) == Joined([keyword, word] + files)
  {
    SpacedIsJoined(word, files);
    JoinedMore(keyword, [word] + files);
    Regrouped(keyword + " ", word, Spaced(files));
    TwoFirst(keyword, word, files);
  }

  lemma FileListIsJoined(keyword: string, files: seq<string>)
    ensures FileList(keyword, files) == Joined([keyword, Dec(|files|)] + files)
  {
    TwoWordsJoined(keyword, Dec(|files|), files);
  }

  /** sendfilename prints the list, with single spaces. It fits into its buffer of 1024 characters, with
      the terminating zero, exactly when the names leave room; 20 names of at most 49 characters, which is
      what the array of names can hold, always do, and so the receiver's buffer of 1400 is never full. */
  method PrintFileList(files: seq<string>) returns (a: string)
    ensures a == FileList(FILECOMING, files) == Joined(["FILECOMING", Dec(|files|)] + files)
    ensures |a| < 1024 <==> |Dec(|files|)| + SpacedLength(files) < 1013
    ensures |files| <= 20 && (forall i :: 0 <= i < |files| ==> |files[i]| <= 49) ==> |a| <= 1013
  {
    FileListIsJoined(FILECOMING, files);
    a := FILECOMING + " " + Dec(|files|);
    var i := 0;
    while i < |files|
      invariant 0 <= i <= |files|
      invariant a == FILECOMING + " " + Dec(|files|) + Spaced(files[..i])
    {
      assert files[..i + 1][..i] == files[..i];
      a := a + " " + files[i];
      i := i + 1;
    }
    assert files[..i] == files;
    LengthOfSpaced(files);
    if |files| <= 20 && forall i :: 0 <= i < |files| ==> |files[i]| <= 49 {
      assert Pow10(2) == 10 * Pow10(1) == 100;
      DecLength(|files|, 2, 100);
      ShortNames(files);
    }
  }

  lemma {:induction false} TokensOfSpaced(files: seq<string>)
    requires forall i :: 0 <= i < |files| ==> Clean(files[i])
    ensures Tokens(Spaced(files)) == files
    ensures files != [] ==> Spaced(files)[0] == ' '
  {
    if files != [] {
      SpacedFromFront(files);
      TokensOfSpaced(files[1..]);
      SpaceBeforeToken(files[0], Spaced(files[1..]));
    }
  }

  lemma DecIsClean(n: nat)
    ensures Clean(Dec(n))
  {
  }

  /** A message of three parts: a clean keyword, a clean word, and anything that starts with a space. */
  lemma TokensOfMessage(keyword: string, word: string, rest: string, words: seq<string>)
    requires Clean(keyword) && Clean(word) && (rest != [] ==> rest[0] == ' ') && Splits(rest, words)
    ensures Splits(keyword + (" " + word + rest), [keyword, word] + words)
  {
    WordNext(word, rest, words);
    KeywordFirst(keyword, " " + word + rest, [word] + words);
    assert [keyword] + ([word] + words) == [keyword, word] + words;
  }

  lemma SameText(keyword: string, word: string, rest: string)
    ensures keyword + " " + word + rest == keyword + (" " + word + rest)
  {
  }

  lemma TokensOfFileList(keyword: string, files: seq<string>)
    requires Clean(keyword)
    ensures Tokens(FileList(keyword, files)) == [keyword, Dec(|files|)] + Tokens(Spaced(files))
  {
    if files != [] {
      SpacedFromFront(files);
    }
    DecIsClean(|files|);
    TokensOfMessage(keyword, Dec(|files|), Spaced(files), Tokens(Spaced(files)));
    SameText(keyword, Dec(|files|), Spaced(files));
  }

  /** The names that the receiver shows: as many words as the number says; None where strtok finds no
      more. */
  function Shown(words: seq<string>): (names: seq<Option<string>>)
    requires |words| >= 2
  {
    var number := Atoi(words[1]);
    seq(if number > 0 then number else 0, i requires i >= 0 => if 2 + i < |words| then Some(words[2 + i]) else None)
  }

  /** The receiver's handling of FILECOMING. */
  method ReadFileList(message: string) returns (names: seq<Option<string>>)
    requires |Tokens(message)| >= 2
    ensures names == Shown(Tokens(message))
    ensures var words := Tokens(message);
            && |names| == (if Atoi(words[1]) > 0 then Atoi(words[1]) else 0)
            && (forall i :: 0 <= i < |names| && i + 2 < |words| ==> names[i] == Some(words[i + 2]))
            && (forall i :: 0 <= i < |names| && i + 2 >= |words| ==> names[i] == None)
  {
    ghost var words := Tokens(message);
    var strtok := new Tokenizer(message);
    var _ := strtok.Next();
    var count := strtok.Next();
    var number := Atoi(count.value);
    ghost var total := if number > 0 then number else 0;
    names := [];
    while number > 0
      invariant 0 <= |names| <= total && number == Atoi(words[1]) - |names|
      invariant strtok.Valid() && names == Shown(words)[..|names|]
      invariant strtok.Left() == if 2 + |names| <= |words| then words[2 + |names|..] else []
    {
      var a := strtok.Next();
      names := names + [a];
      number := number - 1;
    }
  }

  lemma ShownIsSent(files: seq<string>, words: seq<string>)
    requires |words| >= 2 && Atoi(words[1]) == |files| && forall i :: 0 <= i < |words| ==> Clean(words[i])
    ensures words[2..] == files ==> Shown(words) == seq(|files|, i requires 0 <= i < |files| => Some(files[i]))
    ensures Shown(words) == seq(|files|, i requires 0 <= i < |files| => Some(files[i])) ==>
            forall i :: 0 <= i < |files| ==> Clean(files[i])
  {
    var shown, sent := Shown(words), seq(|files|, i requires 0 <= i < |files| => Some(files[i]));
    if words[2..] == files {
      assert forall i :: 0 <= i < |files| ==> words[2..][i] == words[2 + i];
    }
    forall i | 0 <= i < |files| && shown == sent ensures Clean(files[i]) {
      assert shown[i] == sent[i] == Some(files[i]);
    }
  }

  /** The receiver shows exactly the list that was sent exactly when every name is non-empty and free
      of spaces. */
  lemma FileListRoundTrip(keyword: string, files: seq<string>)
    requires Clean(keyword)
    ensures |Tokens(FileList(keyword, files))| >= 2 && Tokens(FileList(keyword, files))[0] == keyword
    ensures Shown(Tokens(FileList(keyword, files))) == seq(|files|, i requires 0 <= i < |files| => Some(files[i]))
            <==> forall i :: 0 <= i < |files| ==> Clean(files[i])
  {
    TokensOfFileList(keyword, files);
    AtoiOfDec(|files|);
    ShownIsSent(files, [keyword, Dec(|files|)] + Tokens(Spaced(files)));
    if forall i :: 0 <= i < |files| ==> Clean(files[i]) {
      TokensOfSpaced(files);
    }
  }

  // ---------- The header of an upload ----------

  /** The header of an upload, whose keyword is UPLOADTOU in the program. */
  function UploadHeader(keyword: string, size: nat, name: string): string {
    keyword + " " + Dec(size) + " " + name
  }

  lemma ThreeJoined(a: string, b: string, c: string)
    ensures a + " " + b + " " + c == Joined([a, b, c])
  {
    JoinedMore(b, [c]);
    JoinedMore(a, [b] + [c]);
    Regrouped(a + " ", b + " ", c);
    Regrouped(a + " ", b, " ");
    assert [a] + ([b] + [c]) == [a, b, c];
  }

  /** The header as it is printed: three words with single spaces. */
  lemma HeaderIsJoined(size: nat, name: string)
    ensures UploadHeader(UPLOADTOU, size, name) == Joined(["UPLOADTOU", Dec(size), name])
  {
    ThreeJoined(UPLOADTOU, Dec(size), name);
  }

  /** Size and name arrive exactly when the name is non-empty and free of spaces. For names that the array
      of names can hold the header is far shorter than both buffers. */
  lemma UploadHeaderRoundTrip(keyword: string, size: nat, name: string)
    requires Clean(keyword)
    ensures var words := Tokens(UploadHeader(keyword, size, name));
            && |words| >= 2 && words[0] == keyword && Atoi(words[1]) == size
            && ((|words| >= 3 && words[2] == name) <==> Clean(name))
    ensures |keyword| <= 10 && size < Pow10(10) && |name| <= 49 ==> |UploadHeader(keyword, size, name)| <= 71
  {
    var rest := " " + name;
    AtoiOfDec(size);
    DecIsClean(size);
    TokensOfMessage(keyword, Dec(size), rest, Tokens(rest));
    SameText(keyword, Dec(size), rest);
    assert UploadHeader(keyword, size, name) == keyword + " " + Dec(size) + rest;
    if Clean(name) {
      SpaceBeforeToken(name, "");
      assert rest == " " + name + "";
    }
    if size < Pow10(10) {
      DecLength(size, 10, Pow10(10));
    }
  }
}
