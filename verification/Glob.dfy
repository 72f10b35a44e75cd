/** The policy's glob patterns: compiled to the text of a regular expression, and matched by
    the meaning that this text has as a regular expression. */
module Glob {
  import opened Model

  type Byte = b: int | 0 <= b < 256

  // ---------- regular expressions ----------

  datatype CharClass = NotNewline | NotSlash | Just(c: char)

  predicate InClass(k: CharClass, c: char) {
    match k
    case NotNewline => c != '\n'
    case NotSlash => c != '/'
    case Just(x) => c == x
  }

  datatype Regex = Empty | Begin | End | One(k: CharClass) | Star(k: CharClass) | Cat(first: Regex, rest: Regex)

  /** The expression matches the part of `s` from `i` to `j`. */
  predicate Matches(r: Regex, s: string, i: nat, j: nat)
    requires i <= j <= |s|
    decreases r
  {
    match r
    case Empty => i == j
    case Begin => i == j == 0
    case End => i == j == |s|
    case One(k) => j == i + 1 && InClass(k, s[i])
    case Star(k) => forall m :: i <= m < j ==> InClass(k, s[m])
    case Cat(a, b) => exists m: nat :: i <= m <= j && Matches(a, s, i, m) && Matches(b, s, m, j)
  }

  /** An expression without anchors may match anywhere. */
  predicate MatchString(r: Regex, s: string) {
    exists j: nat, i: nat :: i <= j <= |s| && Matches(r, s, i, j)
  }

  /** The characters that are not literals in an expression. */
  predicate Special(c: char) {
    c in "\\.+*?()|[]{}^$"
  }

  /** One item at the front of the text, and how long it is. */
  function ParseItem(text: string): Option<(Regex, nat)>
    requires text != []
  {
    if text[0] == '^' then Some((Begin, 1))
    else if text[0] == '$' then Some((End, 1))
    else if text[0] == '.' then Some((One(NotNewline), 1))
    else if text[0] == '[' then if "[^/]" <= text then Some((One(NotSlash), 4)) else None
    else if text[0] == '\\' then
      if |text| > 1 && Special(text[1]) then Some((One(Just(text[1])), 2)) else None
    else if Special(text[0]) then None
    else Some((One(Just(text[0])), 1))
  }

  predicate Repeats(text: string) {
    text != [] && text[0] in "*+?"
  }

  /** The part of the regular expression syntax that the compiler uses: anchors, `.`,
      `[^/]`, escaped and plain characters, and `*` after a character class. */
  function Parse(text: string): Option<Regex> {
    if text == [] then Some(Empty) else
    var item := ParseItem(text);
    if item.None? then None else
    var (r, n) := item.value;
    if n > |text| then None else
    var rest := text[n..];
    if rest != [] && rest[0] == '*' then
      if !r.One? || Repeats(rest[1..]) then None else
      var tail := Parse(rest[1..]);
      if tail.None? then None else Some(Cat(Star(r.k), tail.value))
    else if Repeats(rest) || n == 0 then None
    else
      var tail := Parse(rest);
      if tail.None? then None else Some(Cat(r, tail.value))
  }

  // ---------- patterns ----------

  /** The compiler turns every byte of the pattern into the character with its number. */
  function Chars(pattern: seq<Byte>): string {
    seq(|pattern|, k requires 0 <= k < |pattern| => pattern[k] as char)
  }

  /** The direct meaning of a pattern: `**` is any text without a newline, `*` any text
      without a slash, `?` one character other than a slash, anything else is itself. */
  predicate GlobMatch(p: string, v: string)
    decreases |p|, |v|
  {
    if p == [] then v == []
    else if p[0] == '*' then
      if |p| > 1 && p[1] == '*' then
        GlobMatch(p[2..], v) || (v != [] && v[0] != '\n' && GlobMatch(p, v[1..]))
      else
        GlobMatch(p[1..], v) || (v != [] && v[0] != '/' && GlobMatch(p, v[1..]))
    else v != [] && (if p[0] == '?' then v[0] != '/' else v[0] == p[0]) && GlobMatch(p[1..], v[1..])
  }

  datatype Token = AnyText | AnySegment | AnyChar | Literal(c: char)

  function Tokens(p: string): seq<Token> {
    if p == [] then []
    else if p[0] == '*' then
      if |p| > 1 && p[1] == '*' then [AnyText] + Tokens(p[2..]) else [AnySegment] + Tokens(p[1..])
    else if p[0] == '?' then [AnyChar] + Tokens(p[1..])
    else [Literal(p[0])] + Tokens(p[1..])
  }

  function QuoteMeta(c: char): string {
    if Special(c) then ['\\', c] else [c]
  }

  function Emit(t: Token): string {
    match t
    case AnyText => ".*"
    case AnySegment => "[^/]*"
    case AnyChar => "[^/]"
    case Literal(c) => QuoteMeta(c)
  }

  function EmitAll(ts: seq<Token>): string {
    if ts == [] then [] else Emit(ts[0]) + EmitAll(ts[1..])
  }

  function Text(p: string): string {
    "^" + EmitAll(Tokens(p)) + "$"
  }

  /** The compiler's switch on one byte; `**` makes the index skip one more. */
  method Piece(pattern: seq<Byte>, index: nat) returns (piece: string, next: nat, ghost token: Token)
    requires index < |pattern|
    ensures index < next <= |pattern| && piece == Emit(token)
    ensures Tokens(Chars(pattern)[index..]) == [token] + Tokens(Chars(pattern)[next..])
  {
    ghost var left := Chars(pattern)[index..];
    assert left[1..] == Chars(pattern)[index + 1..];
    next := index;
    if pattern[index] == '*' as int {
      if index + 1 < |pattern| && pattern[index + 1] == '*' as int {
        assert left[2..] == Chars(pattern)[index + 2..];
        piece, token := ".*", AnyText;
        next := next + 1;
      } else {
        piece, token := "[^/]*", AnySegment;
      }
    } else if pattern[index] == '?' as int {
      piece, token := "[^/]", AnyChar;
    } else {
      piece, token := QuoteMeta(pattern[index] as char), Literal(pattern[index] as char);
    }
    next := next + 1;
  }

  method Compile(pattern: seq<Byte>) returns (expression: string)
    ensures expression == Text(Chars(pattern))
  {
    ghost var p := Chars(pattern);
    ghost var done := [];
    assert p[0..] == p;
    expression := "^";
    var index := 0;
    while index < |pattern|
      invariant 0 <= index <= |pattern|
      invariant expression == "^" + EmitAll(done)
      invariant done + Tokens(p[index..]) == Tokens(p)
    {
      var piece, next;
      ghost var token;
      piece, next, token := Piece(pattern, index);
      EmitAppends(done, token);
      Regroup("^", EmitAll(done), piece);
      Regroup(done, [token], Tokens(p[next..]));
      done := done + [token];
      expression := expression + piece;
      index := next;
    }
    assert done == Tokens(p);
    expression := expression + "$";
  }

  lemma Regroup<T>(a: seq<T>, b: seq<T>, c: seq<T>)
    ensures a + b + c == a + (b + c)
  {}

  lemma {:induction false} EmitAppends(ts: seq<Token>, t: Token)
    ensures EmitAll(ts + [t]) == EmitAll(ts) + Emit(t)
  {
    if ts != [] {
      EmitAppends(ts[1..], t);
      assert (ts + [t])[1..] == ts[1..] + [t];
    }
  }

  // ---------- the text means the tokens ----------

  function Item(t: Token): Regex {
    match t
    case AnyText => Star(NotNewline)
    case AnySegment => Star(NotSlash)
    case AnyChar => One(NotSlash)
    case Literal(c) => One(Just(c))
  }

  /** The expression that a token sequence stands for, up to the end of the text. */
  function RegexOf(ts: seq<Token>): Regex {
    if ts == [] then Cat(End, Empty) else Cat(Item(ts[0]), RegexOf(ts[1..]))
  }

  lemma EmitStarts(ts: seq<Token>)
    ensures !Repeats(EmitAll(ts) + "$")
  {
    if ts != [] {
      assert (EmitAll(ts) + "$")[0] == Emit(ts[0])[0];
    }
  }

  lemma {:induction false} EmitParses(ts: seq<Token>)
    ensures Parse(EmitAll(ts) + "$") == Some(RegexOf(ts))
  {
    if ts == [] {
      assert EmitAll(ts) + "$" == "$";
    } else {
      var rest := EmitAll(ts[1..]) + "$";
      EmitParses(ts[1..]);
      EmitStarts(ts[1..]);
      assert EmitAll(ts) + "$" == Emit(ts[0]) + rest;
      ParseEmitted(ts[0], rest);
    }
  }

  lemma ParseStar(k: CharClass, item: string, rest: string)
    requires item != [] && !Repeats(rest) && Parse(rest).Some?
    requires ParseItem(item + ("*" + rest)) == Some((One(k), |item|))
    ensures Parse(item + "*" + rest) == Some(Cat(Star(k), Parse(rest).value))
  {
    var text := item + ("*" + rest);
    assert item + "*" + rest == text;
    assert text[|item|..] == "*" + rest;
    assert ("*" + rest)[1..] == rest;
  }

  lemma ParseOne(k: CharClass, item: string, rest: string)
    requires item != [] && !Repeats(rest) && Parse(rest).Some?
    requires ParseItem(item + rest) == Some((One(k), |item|))
    ensures Parse(item + rest) == Some(Cat(One(k), Parse(rest).value))
  {
    assert (item + rest)[|item|..] == rest;
  }

  lemma ParseEmitted(t: Token, rest: string)
    requires !Repeats(rest) && Parse(rest).Some?
    ensures Parse(Emit(t) + rest) == Some(Cat(Item(t), Parse(rest).value))
  {
    match t
    case AnyText => ParseStar(NotNewline, ".", rest);
    case AnySegment =>
      assert ("[^/]" + ("*" + rest))[..4] == "[^/]";
      ParseStar(NotSlash, "[^/]", rest);
      assert "[^/]" + "*" == "[^/]*";
    case AnyChar =>
      assert ("[^/]" + rest)[..4] == "[^/]";
      ParseOne(NotSlash, "[^/]", rest);
    case Literal(c) =>
      ParseOne(Just(c), QuoteMeta(c), rest);
  }

  /** The emitted text parses back to the intended token sequence, between anchors. */
  lemma CompiledTextParses(p: string)
    ensures Parse(Text(p)) == Some(Cat(Begin, RegexOf(Tokens(p))))
  {
    var rest := EmitAll(Tokens(p)) + "$";
    EmitParses(Tokens(p));
    EmitStarts(Tokens(p));
    assert Text(p)[1..] == rest;
  }

  // ---------- the expression means the pattern ----------

  lemma CatSplits(a: Regex, b: Regex, s: string, i: nat, j: nat) returns (m: nat)
    requires i <= j <= |s| && Matches(Cat(a, b), s, i, j)
    ensures i <= m <= j && Matches(a, s, i, m) && Matches(b, s, m, j)
  {
    m :| i <= m <= j && Matches(a, s, i, m) && Matches(b, s, m, j);
  }

  lemma CatJoins(a: Regex, b: Regex, s: string, i: nat, m: nat, j: nat)
    requires i <= m <= j <= |s| && Matches(a, s, i, m) && Matches(b, s, m, j)
    ensures Matches(Cat(a, b), s, i, j)
  {}

  /** A repeated class either stops here or takes one more character. */
  lemma StarStep(k: CharClass, r: Regex, s: string, i: nat, j: nat)
    requires i <= j <= |s|
    ensures Matches(Cat(Star(k), r), s, i, j) <==>
      Matches(r, s, i, j) || (i < j && InClass(k, s[i]) && Matches(Cat(Star(k), r), s, i + 1, j))
  {
    if Matches(Cat(Star(k), r), s, i, j) {
      var m := CatSplits(Star(k), r, s, i, j);
      if m > i {
        CatJoins(Star(k), r, s, i + 1, m, j);
      }
    }
    if Matches(r, s, i, j) {
      CatJoins(Star(k), r, s, i, i, j);
    }
    if i < j && InClass(k, s[i]) && Matches(Cat(Star(k), r), s, i + 1, j) {
      var m := CatSplits(Star(k), r, s, i + 1, j);
      CatJoins(Star(k), r, s, i, m, j);
    }
  }

  lemma OneStep(k: CharClass, r: Regex, s: string, i: nat, j: nat)
    requires i <= j <= |s|
    ensures Matches(Cat(One(k), r), s, i, j) <==> i < j && InClass(k, s[i]) && Matches(r, s, i + 1, j)
  {
    if Matches(Cat(One(k), r), s, i, j) {
      var m := CatSplits(One(k), r, s, i, j);
    }
    if i < j && InClass(k, s[i]) && Matches(r, s, i + 1, j) {
      CatJoins(One(k), r, s, i, i + 1, j);
    }
  }

  lemma {:induction false} RegexIsGlob(p: string, s: string, i: nat, j: nat)
    requires i <= j <= |s|
    ensures Matches(RegexOf(Tokens(p)), s, i, j) <==> j == |s| && GlobMatch(p, s[i..])
    decreases |p|, j - i
  {
    var r := RegexOf(Tokens(p));
    if p == [] {
      EndMatches(s, i, j);
    } else {
      assert i < |s| ==> s[i..][0] == s[i] && s[i..][1..] == s[i + 1..];
      if p[0] == '*' {
        var skip := if |p| > 1 && p[1] == '*' then 2 else 1;
        var k := if skip == 2 then NotNewline else NotSlash;
        assert r == Cat(Star(k), RegexOf(Tokens(p[skip..])));
        RegexIsGlob(p[skip..], s, i, j);
        StarStep(k, RegexOf(Tokens(p[skip..])), s, i, j);
        if i < j {
          RegexIsGlob(p, s, i + 1, j);
        }
      } else {
        var k := if p[0] == '?' then NotSlash else Just(p[0]);
        assert r == Cat(One(k), RegexOf(Tokens(p[1..])));
        OneStep(k, RegexOf(Tokens(p[1..])), s, i, j);
        if i < j {
          RegexIsGlob(p[1..], s, i + 1, j);
        }
      }
    }
  }

  lemma EndMatches(s: string, i: nat, j: nat)
    requires i <= j <= |s|
    ensures Matches(Cat(End, Empty), s, i, j) <==> i == j == |s|
  {
    if Matches(Cat(End, Empty), s, i, j) {
      var m := CatSplits(End, Empty, s, i, j);
    }
    if i == j == |s| {
      CatJoins(End, Empty, s, i, i, j);
    }
  }

  /** For every pattern, byte by byte, the compiled expression accepts exactly the values
      that the pattern means. */
  lemma CompiledGlobIsCorrect(pattern: seq<Byte>, value: string)
    ensures Parse(Text(Chars(pattern))).Some?
    ensures MatchString(Parse(Text(Chars(pattern))).value, value) <==> GlobMatch(Chars(pattern), value)
  {
    var p := Chars(pattern);
    var body := RegexOf(Tokens(p));
    CompiledTextParses(p);
    RegexIsGlob(p, value, 0, |value|);
    assert value[0..] == value;
    if MatchString(Cat(Begin, body), value) {
      var j: nat, i: nat :| i <= j <= |value| && Matches(Cat(Begin, body), value, i, j);
      var m := CatSplits(Begin, body, value, i, j);
      RegexIsGlob(p, value, 0, j);
    }
    if GlobMatch(p, value) {
      CatJoins(Begin, body, value, 0, 0, |value|);
    }
  }

  /** What the compiled text of a pattern accepts, as a regular expression. */
  predicate Accepts(pattern: seq<Byte>, value: string) {
    CompiledTextParses(Chars(pattern));
    MatchString(Parse(Text(Chars(pattern))).value, value)
  }

  /** Compile the pattern, then match the value with the expression. */
  method MatchGlob(pattern: seq<Byte>, value: string) returns (ok: bool)
    ensures ok == Accepts(pattern, value) == GlobMatch(Chars(pattern), value)
  {
    var expression := Compile(pattern);
    CompiledGlobIsCorrect(pattern, value);
    ok := MatchString(Parse(expression).value, value);
  }

  // ---------- what the wildcards stand for ----------

  predicate Free(v: string, c: char) {
    forall k :: 0 <= k < |v| ==> v[k] != c
  }

  /** A wildcard that avoids `c` takes the first `n` characters, and `q` matches the rest. */
  predicate Takes(q: string, v: string, c: char, n: nat) {
    n <= |v| && Free(v[..n], c) && GlobMatch(q, v[n..])
  }

  lemma TakesMore(q: string, v: string, c: char, n: nat)
    requires v != [] && v[0] != c && Takes(q, v[1..], c, n)
    ensures Takes(q, v, c, n + 1)
  {
    assert v[n + 1..] == v[1..][n..];
    var part := v[..n + 1];
    forall k | 0 <= k < |part| ensures part[k] != c {
      assert k > 0 ==> part[k] == v[1..][..n][k - 1];
    }
  }

  lemma TakesLess(q: string, v: string, c: char, n: nat)
    requires n > 0 && Takes(q, v, c, n)
    ensures v != [] && v[0] != c && Takes(q, v[1..], c, n - 1)
  {
    assert v[0] == v[..n][0];
    assert v[1..][n - 1..] == v[n..];
    var part := v[1..][..n - 1];
    forall k | 0 <= k < |part| ensures part[k] != c {
      assert part[k] == v[..n][k + 1];
    }
  }

  lemma TakesNothing(q: string, v: string, c: char)
    ensures Takes(q, v, c, 0) <==> GlobMatch(q, v)
  {
    assert v[0..] == v;
  }

  predicate Double(p: string) {
    |p| > 1 && p[0] == '*' && p[1] == '*'
  }

  /** What the first wildcard of a pattern may not take, and the pattern after it. */
  function Avoided(p: string): char {
    if Double(p) then '\n' else '/'
  }

  function Following(p: string): string
    requires p != []
  {
    if Double(p) then p[2..] else p[1..]
  }

  /** `**` stands for any text without a newline, `*` for any text without a slash. */
  lemma {:induction false} WildcardsSplit(p: string, v: string)
    requires p != [] && p[0] == '*'
    ensures GlobMatch(p, v) <==> exists n: nat :: Takes(Following(p), v, Avoided(p), n)
    decreases |v|
  {
    var q, c := Following(p), Avoided(p);
    TakesNothing(q, v, c);
    if v != [] {
      WildcardsSplit(p, v[1..]);
    }
    if GlobMatch(p, v) {
      if GlobMatch(q, v) {
        assert Takes(q, v, c, 0);
      } else {
        var n: nat :| Takes(q, v[1..], c, n);
        TakesMore(q, v, c, n);
      }
    }
    if n: nat :| Takes(q, v, c, n) {
      if n > 0 {
        TakesLess(q, v, c, n);
        assert GlobMatch(p, v[1..]);
      }
    }
  }

  /** `?` stands for one character other than a slash, any other character for itself. */
  lemma CharactersMatch(p: string, v: string)
    requires p != [] && p[0] != '*'
    ensures GlobMatch(p, v) <==>
      && |v| > 0 && GlobMatch(p[1..], v[1..])
      && match p[0] { case '?' => v[0] != '/' case c => v[0] == c }
  {}

  /** What the compiler writes, by example: each wildcard, a plain and a special character. */
  lemma TextsByExample()
    ensures Text("") == "^$" && Text("*") == "^[^/]*$" && Text("**") == "^.*$" && Text("?") == "^[^/]$"
    ensures Text("a") == "^a$" && Text(".") == "^\\.$"
  {
    forall c: char ensures c != '*' && c != '?' ==> Tokens([c]) == [Literal(c)] {}
    assert Tokens("*") == [AnySegment] && Tokens("**") == [AnyText] && Tokens("?") == [AnyChar];
    forall token ensures EmitAll([token]) == Emit(token) {
      assert [token][1..] == [];
    }
  }

  // ---------- patterns outside ASCII ----------

  predicate Ascii(p: string) {
    forall k :: 0 <= k < |p| ==> p[k] as int < 0x80
  }

  /** The bytes of one character in UTF-8. */
  function Utf8(c: char): (b: seq<Byte>)
    ensures c as int < 0x80 ==> b == [c as int]
    ensures c as int >= 0x80 ==> |b| >= 2 && forall k :: 0 <= k < |b| ==> b[k] >= 0x80
  {
    var n := c as int;
    if n < 0x80 then [n]
    else if n < 0x800 then [0xC0 + n / 0x40, 0x80 + n % 0x40]
    else if n < 0x1_0000 then [0xE0 + n / 0x1000, 0x80 + n / 0x40 % 0x40, 0x80 + n % 0x40]
    else [0xF0 + n / 0x4_0000, 0x80 + n / 0x1000 % 0x40, 0x80 + n / 0x40 % 0x40, 0x80 + n % 0x40]
  }

  function Encode(p: string): seq<Byte> {
    if p == [] then [] else Utf8(p[0]) + Encode(p[1..])
  }

  /** What the compiler reads instead of a pattern. */
  function Seen(p: string): string {
    Chars(Encode(p))
  }

  lemma SeenSplits(p: string)
    requires p != []
    ensures Seen(p) == Chars(Utf8(p[0])) + Seen(p[1..])
  {}

  lemma {:induction false} AsciiIsSeen(p: string)
    requires Ascii(p)
    ensures Seen(p) == p
  {
    if p != [] {
      SeenSplits(p);
      AsciiIsSeen(p[1..]);
      assert p[0] as int as char == p[0];
    }
  }

  /** The length of the shortest values that a pattern accepts. */
  function Shortest(p: string): nat {
    if p == [] then 0
    else if p[0] == '*' then Shortest(if |p| > 1 && p[1] == '*' then p[2..] else p[1..])
    else 1 + Shortest(p[1..])
  }

  lemma {:induction false} AcceptedIsLong(p: string, v: string)
    requires GlobMatch(p, v)
    ensures |v| >= Shortest(p)
    decreases |p|, |v|
  {
    if p != [] {
      var next := if p[0] == '*' && |p| > 1 && p[1] == '*' then p[2..] else p[1..];
      if p[0] != '*' {
        AcceptedIsLong(next, v[1..]);
      } else if GlobMatch(next, v) {
        AcceptedIsLong(next, v);
      } else {
        AcceptedIsLong(p, v[1..]);
      }
    }
  }

  lemma {:induction false} ShortestIsAccepted(p: string) returns (v: string)
    ensures GlobMatch(p, v) && |v| == Shortest(p)
  {
    if p == [] {
      v := "";
    } else if p[0] == '*' {
      v := ShortestIsAccepted(if |p| > 1 && p[1] == '*' then p[2..] else p[1..]);
    } else {
      var rest := ShortestIsAccepted(p[1..]);
      v := [if p[0] == '?' then 'a' else p[0]] + rest;
      assert v[1..] == rest;
    }
  }

  lemma {:induction false} LiteralsCount(q: string, rest: string)
    requires forall k :: 0 <= k < |q| ==> q[k] != '*'
    ensures Shortest(q + rest) == |q| + Shortest(rest)
  {
    if q == [] {
      assert q + rest == rest;
    } else {
      LiteralsCount(q[1..], rest);
      assert (q + rest)[1..] == q[1..] + rest;
    }
  }

  lemma StarIsSeen(p: string)
    ensures p != [] && Seen(p) != [] ==> (p[0] == '*' <==> Seen(p)[0] == '*')
    ensures p != [] ==> Seen(p) != []
    ensures p == [] ==> Seen(p) == []
  {
    if p != [] {
      SeenSplits(p);
      assert Seen(p)[0] == Chars(Utf8(p[0]))[0];
    }
  }

  lemma LiteralSeen(p: string)
    requires p != [] && p[0] != '*'
    ensures Shortest(Seen(p)) == |Utf8(p[0])| + Shortest(Seen(p[1..]))
  {
    SeenSplits(p);
    LiteralsCount(Chars(Utf8(p[0])), Seen(p[1..]));
  }

  lemma StarSplits(p: string)
    requires p != [] && p[0] == '*'
    ensures Seen(p) == "*" + Seen(p[1..])
  {
    SeenSplits(p);
    assert Chars(Utf8('*')) == "*";
  }

  lemma ShortestOfStars(rest: string)
    ensures Shortest("*" + ("*" + rest)) == Shortest(rest)
    ensures rest == [] || rest[0] != '*' ==> Shortest("*" + rest) == Shortest(rest)
  {
    assert ("*" + ("*" + rest))[2..] == rest;
    assert ("*" + rest)[1..] == rest;
  }

  lemma StarSeen(p: string)
    requires p != [] && p[0] == '*' && !(|p| > 1 && p[1] == '*')
    ensures Shortest(Seen(p)) == Shortest(Seen(p[1..]))
  {
    StarSplits(p);
    StarIsSeen(p[1..]);
    ShortestOfStars(Seen(p[1..]));
  }

  lemma DoubleSeen(p: string)
    requires |p| > 1 && p[0] == '*' && p[1] == '*'
    ensures Shortest(Seen(p)) == Shortest(Seen(p[2..]))
  {
    StarSplits(p);
    StarSplits(p[1..]);
    assert p[1..][1..] == p[2..];
    ShortestOfStars(Seen(p[2..]));
  }

  /** Every byte outside ASCII is one more character to match. */
  lemma {:induction false} SeenIsLonger(p: string)
    ensures Shortest(Seen(p)) >= Shortest(p)
    ensures !Ascii(p) ==> Shortest(Seen(p)) > Shortest(p)
  {
    if p == [] {
      assert Seen(p) == [];
    } else if p[0] != '*' {
      SeenIsLonger(p[1..]);
      LiteralSeen(p);
    } else if |p| > 1 && p[1] == '*' {
      SeenIsLonger(p[2..]);
      DoubleSeen(p);
    } else {
      SeenIsLonger(p[1..]);
      StarSeen(p);
    }
  }

  /** The compiler reads a pattern byte by byte, so a pattern means the text it was written
      as exactly when it is ASCII. */
  lemma PatternMeansItsText(p: string)
    ensures (forall v :: GlobMatch(Seen(p), v) <==> GlobMatch(p, v)) <==> Ascii(p)
  {
    if Ascii(p) {
      AsciiIsSeen(p);
    } else {
      var v := ShortestIsAccepted(p);
      SeenIsLonger(p);
      if GlobMatch(Seen(p), v) {
        AcceptedIsLong(Seen(p), v);
      }
      assert !(GlobMatch(Seen(p), v) <==> GlobMatch(p, v));
    }
  }

  /** One accented letter: its two bytes become two characters. */
  lemma NonAsciiPatternsDiffer()
    ensures GlobMatch("\U{00E9}", "\U{00E9}") && !GlobMatch(Seen("\U{00E9}"), "\U{00E9}")
  {
    var p := "\U{00E9}";
    assert p[1..] == "" && GlobMatch("", "");
    SeenIsLonger(p);
    if GlobMatch(Seen(p), p) {
      AcceptedIsLong(Seen(p), p);
    }
  }
}
