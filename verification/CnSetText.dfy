/** The text of the CN prefix set: extracting IPv4 prefixes from a file, and printing them as nft commands. */
module CnSetText {
  import opened Bits
  import opened RuleKeys
  import opened ElementBatches

  // ---------------------------------------------------------------- which tokens are IPv4 prefixes

  function Split(s: string, c: char): (parts: seq<string>)
    ensures parts != []
    ensures c !in s ==> parts == [s]
  {
    if s == [] then [""]
    else
      var rest := Split(s[1..], c);
      assert [s[0]] + s[1..] == s;
      if s[0] == c then [""] + rest else [[s[0]] + rest[0]] + rest[1..]
  }

  predicate IsDigit(c: char) {
    '0' <= c <= '9'
  }

  predicate AllDigits(s: string) {
    forall c :: c in s ==> IsDigit(c)
  }

  function Value(s: string): nat
    requires AllDigits(s)
  {
    if s == [] then 0
    else
      assert s[|s| - 1] in s;
      Value(s[..|s| - 1]) * 10 + (s[|s| - 1] - '0') as nat
  }

  predicate IsOctet(s: string) {
    1 <= |s| <= 3 && AllDigits(s) && (|s| > 1 ==> s[0] != '0') && Value(s) <= 255
  }

  /** Four decimal octets, without leading zeros. */
  predicate IsQuad(s: string) {
    |Split(s, '.')| == 4 && forall part :: part in Split(s, '.') ==> IsOctet(part)
  }

  /** A netmask: ones followed by zeros. */
  predicate IsMask(s: string) {
    IsQuad(s)
    && var p := Split(s, '.');
       assert p[0] in p && p[1] in p && p[2] in p && p[3] in p;
       var v := ((Value(p[0]) * 256 + Value(p[1])) * 256 + Value(p[2])) * 256 + Value(p[3]);
       exists n :: 0 <= n <= 32 && v == Pow2(32) - Pow2(n)
  }

  /** A number up to 32; a sign and leading zeros are allowed. */
  predicate IsPrefixLength(s: string) {
    var digits := if s != [] && s[0] == '+' then s[1..] else s;
    digits != [] && AllDigits(digits) && Value(digits) <= 32
  }

  predicate IsIpv4CidrOrAddr(token: string) {
    var parts := Split(token, '/');
    (|parts| == 1 && IsQuad(parts[0]))
    || (|parts| == 2 && IsQuad(parts[0]) && (IsPrefixLength(parts[1]) || IsMask(parts[1])))
  }

  /** A bare address becomes a prefix of full length. */
  function Normalized(token: string): string {
    if '/' in token then token else token + "/32"
  }

  // ---------------------------------------------------------------- extraction

  predicate IsSeparator(c: char) {
    IsWhitespace(c) || c == ',' || c == '{' || c == '}' || c == ';' || c == '(' || c == ')' || c == '='
  }

  function Emitted(token: string): seq<string> {
    if IsIpv4CidrOrAddr(token) then [Normalized(token)] else []
  }

  /** The prefixes among the tokens of s, when word is the beginning of its first token. */
  function Tokens(word: string, s: string): seq<string>
    decreases s
  {
    if s == [] then Emitted(word)
    else if IsSeparator(s[0]) then Emitted(word) + Tokens("", s[1..])
    else Tokens(word + [s[0]], s[1..])
  }

  /** The line up to a comment. */
  function WithoutComment(line: string): string {
    if line == [] || line[0] == '#' then [] else [line[0]] + WithoutComment(line[1..])
  }

  function LineCidrs(line: string): seq<string> {
    Tokens("", WithoutComment(line))
  }

  function CidrsOf(lines: seq<string>): seq<string> {
    if lines == [] then [] else CidrsOf(lines[..|lines| - 1]) + LineCidrs(lines[|lines| - 1])
  }

  function Cidrs(content: string): seq<string> {
    CidrsOf(Split(content, '\n'))
  }

  method LineTokens(line: string) returns (result: seq<string>)
    ensures result == Tokens("", line)
  {
    result := [];
    var word := "";
    for i := 0 to |line|
      invariant Tokens("", line) == result + Tokens(word, line[i..])
    {
      assert line[i..][1..] == line[i + 1..];
      if IsSeparator(line[i]) {
        if IsIpv4CidrOrAddr(word) {
          result := result + [Normalized(word)];
        }
        word := "";
      } else {
        word := word + [line[i]];
      }
    }
    if IsIpv4CidrOrAddr(word) {
      result := result + [Normalized(word)];
    }
  }

  method ExtractIpv4Cidrs(content: string) returns (result: seq<string>)
    ensures result == Cidrs(content)
  {
    result := [];
    var lines := Split(content, '\n');
    for i := 0 to |lines|
      invariant result == CidrsOf(lines[..i])
    {
      assert lines[..i + 1][..i] == lines[..i];
      var line := WithoutComment(lines[i]);
      var found := LineTokens(line);
      result := result + found;
    }
    assert lines[..|lines|] == lines;
  }

  // ---------------------------------------------------------------- printing

  /** The fixed parts of the printed lines, cut behind each separator. */
  const TARGET_WORDS := ["ip ", "self-filter ", "cn4 ", "{", " "]
  const TYPE_WORDS := ["type ", "ipv4_addr;", " ", "flags ", "interval;", " ", "}"]
  const SET_WORDS := ["add ", "set "] + TARGET_WORDS + TYPE_WORDS
  const ELEMENT_WORDS := ["add ", "element "] + TARGET_WORDS

  function Text(words: seq<string>): string {
    if words == [] then "" else words[0] + Text(words[1..])
  }

  function Joined(chunk: seq<string>): string {
    if chunk == [] then ""
    else if |chunk| == 1 then chunk[0]
    else Joined(chunk[..|chunk| - 1]) + ", " + chunk[|chunk| - 1]
  }

  function ElementLine(head: string, chunk: seq<string>): string {
    head + Joined(chunk) + " }"
  }

  function ElementLines(head: string, batches: seq<seq<string>>): string {
    if batches == [] then ""
    else ElementLines(head, batches[..|batches| - 1]) + ElementLine(head, batches[|batches| - 1]) + "\n"
  }

  function Definition(cidrs: seq<string>): string {
    if cidrs == [] then "" else Text(SET_WORDS) + "\n" + ElementLines(Text(ELEMENT_WORDS), Batches(cidrs))
  }

  lemma NextFull(k: nat)
    requires k % BATCH == 0
    ensures (k + BATCH) % BATCH == 0
  {
  }

  /** Cutting off one more batch. */
  lemma NextBatch(cidrs: seq<string>, k: nat, to: nat)
    requires k % BATCH == 0 && k < to <= |cidrs| && to - k <= BATCH
    ensures Batches(cidrs[..to]) == Batches(cidrs[..k]) + [cidrs[k..to]]
  {
    assert cidrs[..to] == cidrs[..k] + cidrs[k..to];
    BatchesOfFull(cidrs[..k], cidrs[k..to]);
  }

  lemma OneMoreLine(head: string, batches: seq<seq<string>>, chunk: seq<string>)
    ensures ElementLines(head, batches + [chunk]) == ElementLines(head, batches) + ElementLine(head, chunk) + "\n"
  {
    assert (batches + [chunk])[..|batches|] == batches;
  }

  method PrintBatch(head: string, lines: string, chunk: seq<string>,
                    ghost batches: seq<seq<string>>) returns (more: string)
    requires lines == ElementLines(head, batches)
    ensures more == ElementLines(head, batches + [chunk])
  {
    OneMoreLine(head, batches, chunk);
    more := lines + ElementLine(head, chunk) + "\n";
  }

  /** The first i prefixes are taken up: full batches of them up to k, and the rest in the chunk. */
  ghost predicate TakenUp(cidrs: seq<string>, i: nat, chunk: seq<string>, k: nat, batches: seq<seq<string>>) {
    k <= i <= |cidrs| && i < k + BATCH && k % BATCH == 0 && chunk == cidrs[k..i] && batches == Batches(cidrs[..k])
  }

  lemma LongerChunk(cidrs: seq<string>, i: nat, chunk: seq<string>, k: nat)
    requires k <= i < |cidrs| && chunk == cidrs[k..i]
    ensures chunk + [cidrs[i]] == cidrs[k..i + 1]
  {
  }

  lemma OneMoreInChunk(cidrs: seq<string>, i: nat, chunk: seq<string>, k: nat, batches: seq<seq<string>>)
    requires TakenUp(cidrs, i, chunk, k, batches) && i < |cidrs| && |chunk| + 1 < BATCH
    ensures TakenUp(cidrs, i + 1, chunk + [cidrs[i]], k, batches)
  {
    LongerChunk(cidrs, i, chunk, k);
  }

  lemma ChunkIsFull(cidrs: seq<string>, i: nat, chunk: seq<string>, k: nat, batches: seq<seq<string>>)
    requires TakenUp(cidrs, i, chunk, k, batches) && i < |cidrs| && |chunk| + 1 == BATCH
    ensures TakenUp(cidrs, i + 1, [], i + 1, batches + [chunk + [cidrs[i]]])
  {
    LongerChunk(cidrs, i, chunk, k);
    NextBatch(cidrs, k, i + 1);
    NextFull(k);
  }

  lemma NothingTakenUp(cidrs: seq<string>)
    ensures TakenUp(cidrs, 0, [], 0, [])
  {
    assert cidrs[..0] == [];
  }

  lemma AllTakenUp(cidrs: seq<string>, chunk: seq<string>, k: nat, batches: seq<seq<string>>)
    requires TakenUp(cidrs, |cidrs|, chunk, k, batches)
    ensures Batches(cidrs) == if chunk == [] then batches else batches + [chunk]
  {
    assert cidrs[..|cidrs|] == cidrs;
    if chunk != [] {
      NextBatch(cidrs, k, |cidrs|);
    }
  }

  /** Prints the prefixes, one line for every 256 of them. */
  method RenderElementLines(head: string, cidrs: seq<string>) returns (lines: string)
    ensures lines == ElementLines(head, Batches(cidrs))
  {
    var chunk: seq<string> := [];
    ghost var k: nat, batches: seq<seq<string>> := 0, [];
    lines := "";
    NothingTakenUp(cidrs);
    for i := 0 to |cidrs|
      invariant TakenUp(cidrs, i, chunk, k, batches)
      invariant lines == ElementLines(head, batches)
    {
      ghost var before := chunk;
      chunk := chunk + [cidrs[i]];
      if |chunk| == BATCH {
        ChunkIsFull(cidrs, i, before, k, batches);
        lines := PrintBatch(head, lines, chunk, batches);
        k, batches := i + 1, batches + [chunk];
        chunk := [];
      } else {
        OneMoreInChunk(cidrs, i, before, k, batches);
      }
    }
    AllTakenUp(cidrs, chunk, k, batches);
    if chunk != [] {
      lines := PrintBatch(head, lines, chunk, batches);
    }
  }

  method RenderCn4SetDefinition(cidrs: seq<string>) returns (text: string)
    ensures text == Definition(cidrs)
  {
    if cidrs == [] {
      return "";
    }
    text := Text(SET_WORDS) + "\n";
    var lines := RenderElementLines(Text(ELEMENT_WORDS), cidrs);
    text := text + lines;
  }

  // ---------------------------------------------------------------- accepted tokens

  lemma {:induction false} SplitChars(s: string, c: char, x: char)
    requires x in s && x != c
    ensures exists part :: part in Split(s, c) && x in part
  {
    var rest := Split(s[1..], c);
    if s[0] == x {
      assert x in Split(s, c)[0];
      assert Split(s, c)[0] in Split(s, c);
    } else {
      assert x in s[1..];
      SplitChars(s[1..], c, x);
      var part :| part in rest && x in part;
      if s[0] != c && part == rest[0] {
        assert x in Split(s, c)[0];
        assert Split(s, c)[0] in Split(s, c);
      } else if s[0] != c {
        assert part in rest[1..];
      }
    }
  }

  lemma SplitHead(s: string, c: char)
    requires Split(s, c)[0] != []
    ensures s != [] && s[0] == Split(s, c)[0][0]
  {
  }

  /** Characters an accepted token may contain. */
  predicate Plain(c: char) {
    IsDigit(c) || c == '.' || c == '/' || c == '+'
  }

  lemma QuadIsPlain(s: string)
    requires IsQuad(s)
    ensures s != [] && IsDigit(s[0]) && forall x :: x in s ==> IsDigit(x) || x == '.'
  {
    var parts := Split(s, '.');
    assert parts[0] in parts;
    SplitHead(s, '.');
    assert parts[0][0] in parts[0];
    forall x | x in s && x != '.' ensures IsDigit(x) {
      SplitChars(s, '.', x);
    }
  }

  lemma PrefixLengthIsPlain(s: string)
    requires IsPrefixLength(s)
    ensures forall x :: x in s ==> Plain(x)
  {
    if s[0] == '+' {
      assert s == ['+'] + s[1..];
    }
  }

  lemma PartIsPlain(part: string)
    requires IsQuad(part) || IsPrefixLength(part) || IsMask(part)
    ensures forall x :: x in part ==> Plain(x)
  {
    if IsPrefixLength(part) {
      PrefixLengthIsPlain(part);
    } else {
      QuadIsPlain(part);
    }
  }

  lemma AcceptedParts(token: string)
    requires IsIpv4CidrOrAddr(token)
    ensures IsQuad(Split(token, '/')[0])
    ensures forall part :: part in Split(token, '/') ==> IsQuad(part) || IsPrefixLength(part) || IsMask(part)
  {
  }

  /** An accepted token starts with a digit and contains nothing that separates tokens or starts a comment. */
  lemma AcceptedIsPlain(token: string)
    requires IsIpv4CidrOrAddr(token)
    ensures token != [] && IsDigit(token[0]) && forall x :: x in token ==> Plain(x)
  {
    AcceptedParts(token);
    var parts := Split(token, '/');
    QuadIsPlain(parts[0]);
    SplitHead(token, '/');
    forall x | x in token && x != '/' ensures Plain(x) {
      SplitChars(token, '/', x);
      var part :| part in parts && x in part;
      PartIsPlain(part);
    }
  }

  lemma {:induction false} SplitOnce(a: string, c: char, b: string)
    requires c !in a && c !in b
    ensures Split(a + [c] + b, c) == [a, b]
  {
    if a == [] {
      assert a + [c] + b == [c] + b;
      assert ([c] + b)[1..] == b;
    } else {
      SplitOnce(a[1..], c, b);
      assert (a + [c] + b)[1..] == a[1..] + [c] + b;
      assert [a[0]] + a[1..] == a;
    }
  }

  lemma NormalizedIsAccepted(token: string)
    requires IsIpv4CidrOrAddr(token)
    ensures IsIpv4CidrOrAddr(Normalized(token)) && Normalized(Normalized(token)) == Normalized(token)
  {
    if '/' !in token {
      assert token + "/32" == token + ['/'] + "32";
      SplitOnce(token, '/', "32");
      assert "32"[..1] == "3" && "3"[..0] == "";
      assert Value("32") == 32;
    }
  }

  /** A printed prefix is read back unchanged. */
  predicate Stable(cidr: string) {
    IsIpv4CidrOrAddr(cidr) && '/' in cidr
  }

  lemma {:induction false} TokensAreStable(word: string, s: string)
    ensures forall t :: t in Tokens(word, s) ==> Stable(t)
    decreases s
  {
    if IsIpv4CidrOrAddr(word) {
      NormalizedIsAccepted(word);
    }
    if s != [] {
      if IsSeparator(s[0]) {
        TokensAreStable("", s[1..]);
      } else {
        TokensAreStable(word + [s[0]], s[1..]);
      }
    }
  }

  lemma {:induction false} CidrsAreStable(lines: seq<string>)
    ensures forall t :: t in CidrsOf(lines) ==> Stable(t)
  {
    if lines != [] {
      CidrsAreStable(lines[..|lines| - 1]);
      TokensAreStable("", WithoutComment(lines[|lines| - 1]));
    }
  }

  // ---------------------------------------------------------------- reading printed text

  lemma {:induction false} WordThenSeparator(word: string, w: string, sep: char, rest: string)
    requires IsSeparator(sep) && forall c :: c in w ==> !IsSeparator(c)
    ensures Tokens(word, w + [sep] + rest) == Emitted(word + w) + Tokens("", rest)
    decreases w
  {
    if w == [] {
      assert w + [sep] + rest == [sep] + rest;
      assert word + w == word;
    } else {
      var s := w + [sep] + rest;
      assert s[1..] == w[1..] + [sep] + rest;
      WordThenSeparator(word + [w[0]], w[1..], sep, rest);
      assert word + [w[0]] + w[1..] == word + w;
    }
  }

  lemma PlainWord(w: string)
    requires IsIpv4CidrOrAddr(w)
    ensures forall c :: c in w ==> !IsSeparator(c) && c != '#' && c != '\n'
  {
    AcceptedIsPlain(w);
    forall c | c in w ensures !IsSeparator(c) && c != '#' && c != '\n' {
      assert Plain(c);
    }
  }

  /** A word that does not start with a digit yields nothing. */
  lemma SkipWord(w: string, sep: char, rest: string)
    requires IsSeparator(sep) && (forall c :: c in w ==> !IsSeparator(c)) && (w != [] ==> !IsDigit(w[0]))
    ensures Tokens("", w + [sep] + rest) == Tokens("", rest)
  {
    WordThenSeparator("", w, sep, rest);
    assert "" + w == w;
    if IsIpv4CidrOrAddr(w) {
      AcceptedIsPlain(w);
    }
  }

  lemma ReadWord(w: string, sep: char, rest: string)
    requires IsSeparator(sep) && Stable(w)
    ensures Tokens("", w + [sep] + rest) == [w] + Tokens("", rest)
  {
    PlainWord(w);
    WordThenSeparator("", w, sep, rest);
    assert "" + w == w;
  }

  /** A word of the fixed text: nothing a prefix could start with, and a separator at its end. */
  predicate Quiet(w: string) {
    && w != "" && IsSeparator(w[|w| - 1]) && (|w| > 1 ==> !IsDigit(w[0]))
    && (forall c :: c in w[..|w| - 1] ==> !IsSeparator(c))
    && '#' !in w && '\n' !in w
  }

  lemma Regroup(a: string, sep: char, b: string, c: string)
    ensures (a + [sep]) + b + c == a + [sep] + (b + c)
  {
  }

  lemma {:induction false} FixedTextYieldsNothing(words: seq<string>, rest: string)
    requires forall w :: w in words ==> Quiet(w)
    ensures Tokens("", Text(words) + rest) == Tokens("", rest)
  {
    if words == [] {
      assert Text(words) + rest == rest;
    } else {
      QuietWordYieldsNothing(words[0], Text(words[1..]), rest) by {
        assert words[0] in words;
      }
      FixedTextYieldsNothing(words[1..], rest);
    }
  }

  lemma QuietWordYieldsNothing(w: string, more: string, rest: string)
    requires Quiet(w)
    ensures Tokens("", w + more + rest) == Tokens("", more + rest)
  {
    var init, sep := w[..|w| - 1], w[|w| - 1];
    assert w == init + [sep];
    Regroup(init, sep, more, rest);
    SkipWord(init, sep, more + rest);
  }

  lemma {:induction false} FixedTextIsOneLine(words: seq<string>)
    requires forall w :: w in words ==> Quiet(w)
    ensures OneLine(Text(words))
  {
    if words != [] {
      assert words[0] in words;
      FixedTextIsOneLine(words[1..]);
    }
  }

  lemma TargetWordsAreQuiet()
    ensures forall w :: w in TARGET_WORDS ==> Quiet(w)
  {
  }

  lemma TypeWordsAreQuiet()
    ensures forall w :: w in TYPE_WORDS ==> Quiet(w)
  {
  }

  lemma FixedWordsAreQuiet()
    ensures forall w :: w in SET_WORDS ==> Quiet(w)
    ensures forall w :: w in ELEMENT_WORDS ==> Quiet(w)
  {
    TargetWordsAreQuiet();
    TypeWordsAreQuiet();
    assert Quiet("add ") && Quiet("set ") && Quiet("element ");
  }

  lemma {:induction false} JoinedReadsBack(chunk: seq<string>, sep: char, rest: string)
    requires chunk != [] && IsSeparator(sep) && forall t :: t in chunk ==> Stable(t)
    ensures Tokens("", Joined(chunk) + [sep] + rest) == chunk + Tokens("", rest)
  {
    var init, last := chunk[..|chunk| - 1], chunk[|chunk| - 1];
    assert chunk == init + [last] && last in chunk;
    ReadWord(last, sep, rest);
    if init != [] {
      var more := last + [sep] + rest;
      assert Joined(chunk) + [sep] + rest == Joined(init) + [','] + ("" + [' '] + more);
      SkipWord("", ' ', more);
      JoinedReadsBack(init, ',', "" + [' '] + more);
    }
  }

  predicate OneLine(s: string) {
    '#' !in s && '\n' !in s
  }

  lemma {:induction false} JoinedIsOneLine(chunk: seq<string>)
    requires forall t :: t in chunk ==> Stable(t)
    ensures OneLine(Joined(chunk))
  {
    if chunk != [] {
      assert chunk[|chunk| - 1] in chunk;
      PlainWord(chunk[|chunk| - 1]);
      JoinedIsOneLine(chunk[..|chunk| - 1]);
    }
  }

  lemma {:induction false} NoComment(line: string)
    requires '#' !in line
    ensures WithoutComment(line) == line
  {
    if line != [] {
      NoComment(line[1..]);
      assert [line[0]] + line[1..] == line;
    }
  }

  lemma NothingInside(rest: string)
    requires rest == "" || rest == "}"
    ensures Tokens("", rest) == []
  {
    if IsIpv4CidrOrAddr("") {
      AcceptedIsPlain("");
    }
    if rest == "}" {
      SkipWord("", '}', "");
      assert "" + ['}'] + "" == rest;
      NothingInside("");
    }
  }

  lemma ElementLineReadsBack(chunk: seq<string>)
    requires chunk != [] && forall t :: t in chunk ==> Stable(t)
    ensures var line := ElementLine(Text(ELEMENT_WORDS), chunk); OneLine(line) && LineCidrs(line) == chunk
  {
    var head := Text(ELEMENT_WORDS);
    var line := ElementLine(head, chunk);
    FixedWordsAreQuiet();
    FixedTextYieldsNothing(ELEMENT_WORDS, Joined(chunk) + " }");
    FixedTextIsOneLine(ELEMENT_WORDS);
    JoinedIsOneLine(chunk);
    JoinedReadsBack(chunk, ' ', "}");
    NothingInside("}");
    assert Joined(chunk) + " }" == Joined(chunk) + [' '] + "}";
    assert line == head + (Joined(chunk) + " }");
    NoComment(line);
  }

  lemma SetLineYieldsNothing()
    ensures OneLine(Text(SET_WORDS)) && LineCidrs(Text(SET_WORDS)) == []
  {
    FixedWordsAreQuiet();
    FixedTextYieldsNothing(SET_WORDS, "");
    FixedTextIsOneLine(SET_WORDS);
    assert Text(SET_WORDS) + "" == Text(SET_WORDS);
    NothingInside("");
    NoComment(Text(SET_WORDS));
  }

  lemma ThreeParts(a: seq<string>, b: seq<string>, c: seq<string>)
    ensures a + b + c == a + (b + c)
  {
  }

  lemma {:induction false} CidrsOfConcat(a: seq<string>, b: seq<string>)
    ensures CidrsOf(a + b) == CidrsOf(a) + CidrsOf(b)
  {
    if b == [] {
      assert a + b == a;
    } else {
      var init, last := b[..|b| - 1], b[|b| - 1];
      assert (a + b)[..|a + b| - 1] == a + init;
      CidrsOfConcat(a, init);
      ThreeParts(CidrsOf(a), CidrsOf(init), LineCidrs(last));
    }
  }

  lemma {:induction false} SplitFirst(a: string, c: char, b: string)
    requires c !in a
    ensures Split(a + [c] + b, c) == [a] + Split(b, c)
  {
    if a == [] {
      assert a + [c] + b == [c] + b;
      assert ([c] + b)[1..] == b;
    } else {
      SplitFirst(a[1..], c, b);
      assert (a + [c] + b)[1..] == a[1..] + [c] + b;
      assert [a[0]] + a[1..] == a;
    }
  }

  lemma FirstLine(line: string, rest: string)
    requires OneLine(line)
    ensures Cidrs(line + "\n" + rest) == LineCidrs(line) + Cidrs(rest)
  {
    SplitFirst(line, '\n', rest);
    CidrsOfConcat([line], Split(rest, '\n'));
    assert [line][..0] == [];
    assert CidrsOf([line]) == LineCidrs(line);
  }

  lemma {:induction false} ElementLinesFirst(head: string, first: seq<string>, rest: seq<seq<string>>)
    ensures ElementLines(head, [first] + rest) == ElementLine(head, first) + "\n" + ElementLines(head, rest)
  {
    if rest == [] {
      assert [first] + rest == [] + [first];
      OneMoreLine(head, [], first);
    } else {
      var init, last := rest[..|rest| - 1], rest[|rest| - 1];
      assert rest == init + [last];
      assert [first] + rest == ([first] + init) + [last];
      ElementLinesFirst(head, first, init);
      OneMoreLine(head, init, last);
      OneMoreLine(head, [first] + init, last);
      FourParts(ElementLine(head, first) + "\n", ElementLines(head, init), ElementLine(head, last), "\n");
    }
  }

  lemma FourParts(a: string, b: string, c: string, d: string)
    ensures a + b + c + d == a + (b + c + d)
  {
  }

  predicate StableBatch(b: seq<string>) {
    b != [] && forall t :: t in b ==> Stable(t)
  }

  lemma {:induction false} ElementLinesReadBack(batches: seq<seq<string>>)
    requires forall b :: b in batches ==> StableBatch(b)
    ensures Cidrs(ElementLines(Text(ELEMENT_WORDS), batches)) == Flatten(batches)
  {
    if batches == [] {
      assert Split("", '\n') == [""];
      assert [""][..0] == [];
      NothingInside("");
    } else {
      assert batches[0] in batches;
      assert batches == [batches[0]] + batches[1..];
      ElementLinesFirst(Text(ELEMENT_WORDS), batches[0], batches[1..]);
      ElementLineReadsBack(batches[0]);
      FirstLine(ElementLine(Text(ELEMENT_WORDS), batches[0]), ElementLines(Text(ELEMENT_WORDS), batches[1..]));
      forall b | b in batches[1..] ensures StableBatch(b) {
        assert b in batches;
      }
      ElementLinesReadBack(batches[1..]);
    }
  }

  lemma {:induction false} FlattenMembers(batches: seq<seq<string>>, b: seq<string>, t: string)
    requires b in batches && t in b
    ensures t in Flatten(batches)
  {
    if b != batches[0] {
      FlattenMembers(batches[1..], b, t);
    }
  }

  /** Printing and extracting undo each other, for every list of prefixes that extraction can produce. */
  lemma DefinitionReadsBack(cidrs: seq<string>)
    requires forall t :: t in cidrs ==> Stable(t)
    ensures Cidrs(Definition(cidrs)) == cidrs
  {
    var batches := Batches(cidrs);
    BatchesPartition(cidrs);
    forall b | b in batches ensures StableBatch(b) {
      forall t | t in b ensures Stable(t) {
        FlattenMembers(batches, b, t);
      }
    }
    ElementLinesReadBack(batches);
    if cidrs == [] {
      assert Split("", '\n') == [""];
      assert [""][..0] == [];
      NothingInside("");
    } else {
      SetLineYieldsNothing();
      FirstLine(Text(SET_WORDS), ElementLines(Text(ELEMENT_WORDS), batches));
    }
  }

  /** For every file content: extracting from the printed form of what was extracted returns the same prefixes
      in the same order. */
  lemma ExtractPrintExtract(content: string)
    ensures Cidrs(Definition(Cidrs(content))) == Cidrs(content)
  {
    CidrsAreStable(Split(content, '\n'));
    DefinitionReadsBack(Cidrs(content));
  }

  /** The printed form has one line per batch, all but the last of 256 prefixes, and together they hold every
      prefix once and in order. */
  lemma PrintedInBatches(cidrs: seq<string>) returns (batches: seq<seq<string>>)
    requires cidrs != []
    ensures Definition(cidrs) == Text(SET_WORDS) + "\n" + ElementLines(Text(ELEMENT_WORDS), batches)
    ensures Flatten(batches) == cidrs && forall b :: b in batches ==> 0 < |b| <= BATCH
    ensures forall i :: 0 <= i < |batches| - 1 ==> |batches[i]| == BATCH
  {
    batches := Batches(cidrs);
    BatchesPartition(cidrs);
  }
}
