/** The command line shown to the reviewer: plain words as they are, everything else quoted
    in ASCII; and the parser that reads it back. Strings are sequences of Unicode characters. */
module Display {
  import opened Model

  // ---------- printing ----------

  predicate Safe(c: char) {
    || 'a' <= c <= 'z' || 'A' <= c <= 'Z' || '0' <= c <= '9'
    || c in "_@%+=:,./-"
  }

  predicate Plain(value: string) {
    value != [] && forall k :: 0 <= k < |value| ==> Safe(value[k])
  }

  function HexDigit(n: nat): char
    requires n < 16
  {
    "0123456789abcdef"[n]
  }

  function Power16(n: nat): nat {
    if n == 0 then 1 else 16 * Power16(n - 1)
  }

  /** `n` lower-case hexadecimal digits. */
  function Hex(v: nat, n: nat): (s: string)
    ensures |s| == n
  {
    if n == 0 then [] else Hex(v / 16, n - 1) + [HexDigit(v % 16)]
  }

  /** The one-letter escapes of control characters. */
  function Letter(c: char): Option<char> {
    match c as int
    case 7 => Some('a')
    case 8 => Some('b')
    case 12 => Some('f')
    case 10 => Some('n')
    case 13 => Some('r')
    case 9 => Some('t')
    case 11 => Some('v')
    case _ => None
  }

  function Escape(c: char): string {
    if c == '"' || c == '\\' then ['\\', c]
    else if ' ' <= c <= '~' then [c]
    else if Letter(c).Some? then ['\\', Letter(c).value]
    else if c < ' ' || c as int == 0x7f then ['\\', 'x'] + Hex(c as int, 2)
    else if c as int < 0x10000 then ['\\', 'u'] + Hex(c as int, 4)
    else ['\\', 'U'] + Hex(c as int, 8)
  }

  function Escapes(value: string): string {
    if value == [] then [] else Escape(value[0]) + Escapes(value[1..])
  }

  function QuoteToAscii(value: string): string {
    ['"'] + Escapes(value) + ['"']
  }

  function DisplayArgument(value: string): string {
    if Plain(value) then value else QuoteToAscii(value)
  }

  function Join(values: seq<string>): string {
    if values == [] then []
    else if |values| == 1 then DisplayArgument(values[0])
    else DisplayArgument(values[0]) + [' '] + Join(values[1..])
  }

  method Command(executable: string, argv: seq<string>) returns (line: string)
    ensures line == Join([executable] + argv)
  {
    var values := [executable] + argv;
    var index := |values| - 1;
    line := DisplayArgument(values[index]);
    while index > 0
      invariant 0 <= index < |values| && line == Join(values[index..])
    {
      index := index - 1;
      assert values[index..][1..] == values[index + 1..];
      line := DisplayArgument(values[index]) + [' '] + line;
    }
    assert values[0..] == values;
  }

  // ---------- reading back ----------

  function HexValue(c: char): Option<nat> {
    if '0' <= c <= '9' then Some(c as int - '0' as int)
    else if 'a' <= c <= 'f' then Some(c as int - 'a' as int + 10)
    else None
  }

  function ReadHex(s: string): Option<nat> {
    if s == [] then Some(0) else
    var high, low := ReadHex(s[..|s| - 1]), HexValue(s[|s| - 1]);
    if high.None? || low.None? then None else Some(16 * high.value + low.value)
  }

  predicate IsScalar(n: nat) {
    n < 0xD800 || 0xE000 <= n < 0x11_0000
  }

  /** The character of an escape with `n` digits, and what follows. */
  function ReadCode(text: string, n: nat): Option<(char, string)> {
    if |text| < n then None else
    var v := ReadHex(text[..n]);
    if v.None? || !IsScalar(v.value) then None else Some((v.value as char, text[n..]))
  }

  function Unletter(c: char): Option<char> {
    match c
    case 'a' => Some(7 as char)
    case 'b' => Some(8 as char)
    case 'f' => Some(12 as char)
    case 'n' => Some(10 as char)
    case 'r' => Some(13 as char)
    case 't' => Some(9 as char)
    case 'v' => Some(11 as char)
    case _ => None
  }

  /** The first character that the text stands for, and the rest of the text. */
  function Unescape(text: string): (r: Option<(char, string)>)
    requires text != []
    ensures r.Some? ==> |r.value.1| < |text|
  {
    if text[0] != '\\' then Some((text[0], text[1..]))
    else if |text| < 2 then None
    else if text[1] == '"' || text[1] == '\\' then Some((text[1], text[2..]))
    else if Unletter(text[1]).Some? then Some((Unletter(text[1]).value, text[2..]))
    else if text[1] == 'x' then ReadCode(text[2..], 2)
    else if text[1] == 'u' then ReadCode(text[2..], 4)
    else if text[1] == 'U' then ReadCode(text[2..], 8)
    else None
  }

  /** The value of a quoted word after its opening quote, and what follows the closing one. */
  function Unquote(text: string): Option<(string, string)>
    decreases |text|
  {
    if text == [] then None
    else if text[0] == '"' then Some(([], text[1..]))
    else
      var one := Unescape(text);
      if one.None? then None else
      var more := Unquote(one.value.1);
      if more.None? then None else Some(([one.value.0] + more.value.0, more.value.1))
  }

  function PlainLength(text: string): (n: nat)
    ensures n <= |text|
  {
    if text == [] || text[0] == ' ' then 0 else 1 + PlainLength(text[1..])
  }

  function ReadWord(text: string): Option<(string, string)> {
    if text == [] then None
    else if text[0] == '"' then Unquote(text[1..])
    else var n := PlainLength(text); Some((text[..n], text[n..]))
  }

  /** The words of a displayed command line. */
  function ReadWords(text: string): Option<seq<string>>
    decreases |text|
  {
    var word := ReadWord(text);
    if word.None? then None
    else if word.value.1 == [] then Some([word.value.0])
    else if word.value.1[0] != ' ' || |word.value.1| > |text| then None
    else
      var more := ReadWords(word.value.1[1..]);
      if more.None? then None else Some([word.value.0] + more.value)
  }

  // ---------- round trip ----------

  lemma DigitReadsBack(n: nat)
    requires n < 16
    ensures HexValue(HexDigit(n)) == Some(n)
  {}

  lemma {:induction false} HexReadsBack(v: nat, n: nat)
    requires v < Power16(n)
    ensures ReadHex(Hex(v, n)) == Some(v)
  {
    if n > 0 {
      HexReadsBack(v / 16, n - 1);
      DigitReadsBack(v % 16);
    }
  }

  lemma CodeReadsBack(c: char, n: nat, rest: string)
    requires c as int < Power16(n)
    ensures ReadCode(Hex(c as int, n) + rest, n) == Some((c, rest))
  {
    HexReadsBack(c as int, n);
    assert (Hex(c as int, n) + rest)[..n] == Hex(c as int, n);
    assert (Hex(c as int, n) + rest)[n..] == rest;
  }

  lemma Powers()
    ensures Power16(2) == 0x100 && Power16(4) == 0x1_0000 && Power16(8) == 0x1_0000_0000
  {
    assert Power16(1) == 16;
    assert Power16(2) == 0x100;
    assert Power16(3) == 0x1000;
    assert Power16(4) == 0x1_0000;
    assert Power16(5) == 0x10_0000;
    assert Power16(6) == 0x100_0000;
    assert Power16(7) == 0x1000_0000;
  }

  lemma CodeEscapeReadsBack(c: char, letter: char, n: nat, rest: string)
    requires c as int < Power16(n) && (letter, n) in {('x', 2), ('u', 4), ('U', 8)}
    ensures Unescape(['\\', letter] + Hex(c as int, n) + rest) == Some((c, rest))
  {
    var text := ['\\', letter] + Hex(c as int, n) + rest;
    assert text[2..] == Hex(c as int, n) + rest;
    CodeReadsBack(c, n, rest);
  }

  lemma EscapeReadsBack(c: char, rest: string)
    ensures Unescape(Escape(c) + rest) == Some((c, rest))
    ensures (Escape(c) + rest)[0] != '"'
  {
    Powers();
    if c == '"' || c == '\\' {
      assert (Escape(c) + rest)[2..] == rest;
    } else if ' ' <= c <= '~' {
      assert (Escape(c) + rest)[1..] == rest;
    } else if Letter(c).Some? {
      assert (Escape(c) + rest)[2..] == rest;
    } else if c < ' ' || c as int == 0x7f {
      CodeEscapeReadsBack(c, 'x', 2, rest);
    } else if c as int < 0x10000 {
      CodeEscapeReadsBack(c, 'u', 4, rest);
    } else {
      CodeEscapeReadsBack(c, 'U', 8, rest);
    }
  }

  lemma {:induction false} QuotedReadsBack(value: string, rest: string)
    ensures Unquote(Escapes(value) + ['"'] + rest) == Some((value, rest))
  {
    if value == [] {
      assert Escapes(value) + ['"'] + rest == ['"'] + rest;
    } else {
      var tail := Escapes(value[1..]) + ['"'] + rest;
      QuotedSplits(value, rest);
      EscapeReadsBack(value[0], tail);
      QuotedReadsBack(value[1..], rest);
      UnquoteStep(Escape(value[0]) + tail, value[0], tail, value[1..], rest);
      assert [value[0]] + value[1..] == value;
    }
  }

  lemma QuotedSplits(value: string, rest: string)
    requires value != []
    ensures Escapes(value) + ['"'] + rest == Escape(value[0]) + (Escapes(value[1..]) + ['"'] + rest)
  {}

  lemma UnquoteStep(text: string, c: char, tail: string, value: string, rest: string)
    requires text != [] && text[0] != '"' && Unescape(text) == Some((c, tail)) && Unquote(tail) == Some((value, rest))
    ensures Unquote(text) == Some(([c] + value, rest))
  {}

  lemma {:induction false} PlainReadsBack(value: string, rest: string)
    requires (forall k :: 0 <= k < |value| ==> Safe(value[k])) && (rest == [] || rest[0] == ' ')
    ensures PlainLength(value + rest) == |value|
  {
    if value == [] {
      assert value + rest == rest;
    } else {
      assert (value + rest)[1..] == value[1..] + rest;
      PlainReadsBack(value[1..], rest);
    }
  }

  lemma WordReadsBack(value: string, rest: string)
    requires rest == [] || rest[0] == ' '
    ensures ReadWord(DisplayArgument(value) + rest) == Some((value, rest))
  {
    if Plain(value) {
      PlainWordReadsBack(value, rest);
    } else {
      QuotedWordReadsBack(value, rest);
    }
  }

  lemma PlainWordReadsBack(value: string, rest: string)
    requires Plain(value) && (rest == [] || rest[0] == ' ')
    ensures ReadWord(value + rest) == Some((value, rest))
  {
    PlainReadsBack(value, rest);
    assert (value + rest)[..|value|] == value && (value + rest)[|value|..] == rest;
  }

  lemma QuotedWordReadsBack(value: string, rest: string)
    ensures ReadWord(QuoteToAscii(value) + rest) == Some((value, rest))
  {
    var text := QuoteToAscii(value) + rest;
    assert text[0] == '"' && text[1..] == Escapes(value) + ['"'] + rest;
    QuotedReadsBack(value, rest);
  }

  lemma ReadWordsStep(text: string, word: string, rest: string)
    requires ReadWord(text) == Some((word, rest)) && |rest| <= |text|
    requires rest == [] || (rest[0] == ' ' && ReadWords(rest[1..]).Some?)
    ensures ReadWords(text) == if rest == [] then Some([word]) else Some([word] + ReadWords(rest[1..]).value)
  {}

  lemma {:induction false} WordsReadBack(values: seq<string>)
    requires values != []
    ensures ReadWords(Join(values)) == Some(values)
  {
    var shown := DisplayArgument(values[0]);
    if |values| == 1 {
      WordReadsBack(values[0], []);
      assert shown + [] == shown;
      ReadWordsStep(shown, values[0], []);
      assert [values[0]] == values;
    } else {
      var rest := [' '] + Join(values[1..]);
      WordReadsBack(values[0], rest);
      WordsReadBack(values[1..]);
      assert rest[1..] == Join(values[1..]);
      ReadWordsStep(shown + rest, values[0], rest);
      assert Join(values) == shown + rest;
      assert [values[0]] + values[1..] == values;
    }
  }

  /** The displayed line determines the command: a parser recovers it, whatever the
      arguments contain. */
  lemma CommandReadsBack(executable: string, argv: seq<string>)
    ensures ReadWords(Join([executable] + argv)) == Some([executable] + argv)
  {
    WordsReadBack([executable] + argv);
  }

  lemma DisplayIsInjective(e: string, a: seq<string>, f: string, b: seq<string>)
    requires Join([e] + a) == Join([f] + b)
    ensures e == f && a == b
  {
    CommandReadsBack(e, a);
    CommandReadsBack(f, b);
    assert ([e] + a)[0] == ([f] + b)[0] && ([e] + a)[1..] == ([f] + b)[1..];
    assert a == ([e] + a)[1..] && b == ([f] + b)[1..];
  }

  // ---------- nothing but printable ASCII reaches the terminal ----------

  predicate Printable(s: string) {
    forall k :: 0 <= k < |s| ==> ' ' <= s[k] <= '~'
  }

  lemma {:induction false} HexIsPrintable(v: nat, n: nat)
    ensures Printable(Hex(v, n))
  {
    if n > 0 {
      HexIsPrintable(v / 16, n - 1);
      assert Printable([HexDigit(v % 16)]);
    }
  }

  lemma EscapeIsPrintable(c: char)
    ensures Printable(Escape(c))
  {
    HexIsPrintable(c as int, 2);
    HexIsPrintable(c as int, 4);
    HexIsPrintable(c as int, 8);
  }

  lemma {:induction false} EscapesArePrintable(value: string)
    ensures Printable(Escapes(value))
  {
    if value != [] {
      EscapeIsPrintable(value[0]);
      EscapesArePrintable(value[1..]);
    }
  }

  lemma ArgumentIsPrintable(value: string)
    ensures Printable(DisplayArgument(value))
  {
    EscapesArePrintable(value);
  }

  /** No control character, and nothing outside ASCII, appears in a displayed command. */
  lemma {:induction false} DisplayIsPrintable(values: seq<string>)
    ensures Printable(Join(values))
  {
    if values != [] {
      ArgumentIsPrintable(values[0]);
      DisplayIsPrintable(values[1..]);
    }
  }

  // ---------- what it looks like ----------

  /** A word of letters, digits and `_@%+=:,./-` is shown as it is. */
  lemma PlainLooksLike(value: string)
    requires value != []
    requires forall k :: 0 <= k < |value| ==>
      var c := value[k]; 'a' <= c <= 'z' || 'A' <= c <= 'Z' || '0' <= c <= '9' || c in "_@%+=:,./-"
    ensures DisplayArgument(value) == value
  {}

  /** Every other word, the empty one included, is shown between double quotes. */
  lemma OthersLookLike(value: string, k: nat)
    requires value == [] ||
      (k < |value| && var c := value[k];
       !('a' <= c <= 'z' || 'A' <= c <= 'Z' || '0' <= c <= '9') && c !in "_@%+=:,./-")
    ensures DisplayArgument(value) == "\"" + Escapes(value) + "\""
  {}

  /** Words with single spaces between them. */
  function Spaced(words: seq<string>): string {
    if words == [] then [] else if |words| == 1 then words[0] else words[0] + " " + Spaced(words[1..])
  }

  /** The line is the shown words with single spaces between them; so a line of plain words
      is the words. */
  lemma {:induction false} LinesLookLike(words: seq<string>, shown: seq<string>)
    requires |shown| == |words| && forall k :: 0 <= k < |words| ==> shown[k] == DisplayArgument(words[k])
    ensures Join(words) == Spaced(shown)
  {
    if |words| > 1 {
      LinesLookLike(words[1..], shown[1..]);
    }
  }

  /** Printable ASCII is shown as it is, except that quotes and backslashes are escaped. */
  lemma PrintableLooksLike(c: char)
    requires ' ' <= c <= '~'
    ensures Escape(c) == if c == '"' then "\\\"" else if c == '\\' then "\\\\" else [c]
  {}

  lemma HexStep(v: nat, n: nat)
    ensures Hex(v, n + 1) == Hex(v / 16, n) + [HexDigit(v % 16)]
  {}

  lemma HexOfZeros()
    ensures Hex(0, 2) == "00" && Hex(0, 3) == "000"
  {
    HexStep(0, 0);
    HexStep(0, 1);
    HexStep(0, 2);
  }

  lemma HexOfSmall()
    ensures Hex(0x7f, 2) == "7f" && Hex(0xe9, 4) == "00e9"
  {
    HexOfZeros();
    HexStep(0x7, 0);
    HexStep(0x7f, 1);
    HexStep(0xe, 2);
    HexStep(0xe9, 3);
  }

  lemma HexOfLarge()
    ensures Hex(0x1f600, 8) == "0001f600"
  {
    HexOfZeros();
    HexStep(0x1, 3);
    HexStep(0x1f, 4);
    HexStep(0x1f6, 5);
    HexStep(0x1f60, 6);
    HexStep(0x1f600, 7);
  }

  lemma CodesLookLike(c: char)
    requires !(' ' <= c <= '~') && Letter(c).None?
    ensures var n := c as int;
      Escape(c) == if n < 0x20 || n == 0x7f then "\\x" + Hex(n, 2)
                   else if n < 0x1_0000 then "\\u" + Hex(n, 4) else "\\U" + Hex(n, 8)
  {}

  /** The escapes by example: letters, a control character, a letter with an accent, a face. */
  lemma LettersLookLike()
    ensures Escape('\n') == "\\n" && Escape('\t') == "\\t" && Escape('\r') == "\\r"
    ensures Escape(7 as char) == "\\a" && Escape(8 as char) == "\\b" && Escape(11 as char) == "\\v"
    ensures Escape(12 as char) == "\\f"
  {}

  lemma CodesByExample(c: char)
    ensures c as int == 0x7f ==> Escape(c) == "\\x" + "7f"
    ensures c as int == 0xe9 ==> Escape(c) == "\\u" + "00e9"
    ensures c as int == 0x1f600 ==> Escape(c) == "\\U" + "0001f600"
  {
    if c as int in {0x7f, 0xe9, 0x1f600} {
      CodesLookLike(c);
      HexOfSmall();
      HexOfLarge();
    }
  }

  /** Which kind each character outside printable ASCII gets. */
  lemma EscapeKinds(c: char)
    requires !(' ' <= c <= '~')
    ensures var e := Escape(c); var n := c as int;
      if n < 0x20 || n == 0x7f then
        if 7 <= n <= 13 then |e| == 2 && e[0] == '\\' && e[1] == "abtnvfr"[n - 7]
        else |e| == 4 && e[..2] == "\\x"
      else if n < 0x1_0000 then |e| == 6 && e[..2] == "\\u"
      else |e| == 10 && e[..2] == "\\U"
  {}
}
