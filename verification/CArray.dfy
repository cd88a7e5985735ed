/**
 Bitmaps as C arrays: the printer that writes a byte string as a PROGMEM array, the parser that
 takes one out of C text, and the round trip between them. What the parser's regular expressions
 match is stated as the set of their matches, so that no matching strategy is assumed.
 */
module CArray {
  import opened Wrappers
  import opened Bytes

  const BYTES_PER_LINE: nat := 12

  // ---- the printer ----

  function HexDigit(n: nat): char
    requires n < 16
  {
    "0123456789abcdef"[n]
  }

  function HexByte(b: byte): string {
    "0x" + [HexDigit(b as nat / 16), HexDigit(b as nat % 16)]
  }

  /** Bytes separated by commas. */
  function Join(chunk: Text): string {
    if chunk == [] then ""
    else if |chunk| == 1 then HexByte(chunk[0])
    else HexByte(chunk[0]) + ", " + Join(chunk[1..])
  }

  function Width(data: Text): nat { if |data| < BYTES_PER_LINE then |data| else BYTES_PER_LINE }

  function Line(data: Text): string {
    var n := Width(data);
    "    " + Join(data[..n]) + if n < |data| then "," else ""
  }

  /** The lines of values, each with its line end. */
  function Body(data: Text): string
    decreases |data|
  {
    if data == [] then "" else Line(data) + "\n" + Body(data[Width(data)..])
  }

  function Decimal(n: nat): string {
    if n < 10 then ["0123456789"[n]] else Decimal(n / 10) + ["0123456789"[n % 10]]
  }

  function Comment(filename: string, width: nat, height: nat, n: nat): string {
    "//" + CommentText(filename, width, height, n)
  }

  function Size(width: nat, height: nat): string { Decimal(width) + "x" + Decimal(height) }

  function CommentText(filename: string, width: nat, height: nat, n: nat): string {
    " " + filename + " - " + Size(width, height) + " image (" + Decimal(n) + " bytes with header)"
  }

  function Declaration(name: string): string { "const unsigned char " + name + "[] PROGMEM = {" }

  function Length(name: string, n: nat): string {
    "const unsigned int " + name + "_len = " + Decimal(n) + ";"
  }

  function Printed(name: string, data: Text, comment: string): string {
    comment + "\n" + Declaration(name) + "\n" + Body(data) + "};" + "\n" + Length(name, |data|)
  }

  /** Lines with their line ends. */
  function Unlines(lines: seq<string>): string {
    if lines == [] then "" else Unlines(lines[..|lines| - 1]) + lines[|lines| - 1] + "\n"
  }

  lemma UnlinesMore(lines: seq<string>, line: string)
    ensures Unlines(lines + [line]) == Unlines(lines) + line + "\n"
  {
    assert (lines + [line])[..|lines|] == lines;
  }

  method FormatCppArray(name: string, data: Text, width: nat, height: nat, filename: string) returns (text: string)
    ensures text == Printed(name, data, Comment(filename, width, height, |data|))
  {
    var comment := Comment(filename, width, height, |data|);
    var lines := [comment];
    var declaration := Declaration(name);
    UnlinesMore([], comment);
    UnlinesMore([comment], declaration);
    assert [comment] + [declaration] == [comment, declaration];
    lines := lines + [declaration];
    ghost var start := comment + "\n" + declaration + "\n";
    assert "" + comment == comment;
    var i := 0;
    while i < |data|
      invariant 0 <= i <= |data|
      invariant Unlines(lines) + Body(data[i..]) == start + Body(data)
    {
      var chunk := data[i..];
      UnlinesMore(lines, Line(chunk));
      Reassociate(Unlines(lines), Line(chunk), "\n", Body(chunk[Width(chunk)..]));
      lines := lines + [Line(chunk)];
      assert chunk[Width(chunk)..] == data[i + Width(chunk)..];
      i := i + Width(chunk);
    }
    assert data[|data|..] == [];
    assert Unlines(lines) + "" == Unlines(lines);
    UnlinesMore(lines, "};");
    lines := lines + ["};"];
    text := Unlines(lines) + Length(name, |data|);
  }

  lemma Reassociate(a: string, b: string, c: string, d: string)
    ensures a + b + c + d == a + (b + c + d) == (a + b) + (c + d)
  {
  }

  // ---- the parser ----

  /** A comment to the end of the line, line end excluded. */
  function DropLine(s: string): (r: string)
    ensures |r| <= |s|
  {
    if s == "" || s[0] == '\n' then s else DropLine(s[1..])
  }

  function StripLineComments(s: string): (r: string)
    decreases |s|
  {
    if |s| < 2 then s
    else if s[0] == '/' && s[1] == '/' then StripLineComments(DropLine(s[2..]))
    else [s[0]] + StripLineComments(s[1..])
  }

  /** The text after the first end of a block comment, if there is one. */
  function AfterBlock(s: string): (r: Option<string>)
    ensures r.Some? ==> |r.value| < |s|
  {
    if |s| < 2 then None
    else if s[0] == '*' && s[1] == '/' then Some(s[2..])
    else AfterBlock(s[1..])
  }

  function StripBlockComments(s: string): (r: string)
    decreases |s|
  {
    if |s| < 2 then s
    else if s[0] == '/' && s[1] == '*' && AfterBlock(s[2..]).Some? then StripBlockComments(AfterBlock(s[2..]).value)
    else [s[0]] + StripBlockComments(s[1..])
  }

  predicate IsSpace(c: char) { c == ' ' || ('\t' <= c <= '\r') }
  predicate IsDigit(c: char) { '0' <= c <= '9' }
  predicate IsWordChar(c: char) { IsDigit(c) || 'a' <= c <= 'z' || 'A' <= c <= 'Z' || c == '_' }
  predicate Spaces(s: string) { forall i :: 0 <= i < |s| ==> IsSpace(s[i]) }
  predicate WordChars(s: string) { forall i :: 0 <= i < |s| ==> IsWordChar(s[i]) }

  /** An optional word with the space behind it. */
  predicate Optionally(s: string, w: string) {
    s == "" || (|s| > |w| && s[..|w|] == w && Spaces(s[|w|..]))
  }

  /** One way to match the declaration pattern up to its opening brace. */
  datatype Match = Match(
    storage: string, linkage: string, sign: string, element: string, gap: string, name: string,
    s1: string, s2: string, s3: string, progmem: string, s4: string)
  {
    predicate Valid() {
      && Optionally(storage, "const") && Optionally(linkage, "static") && Optionally(sign, "unsigned")
      && (element == "char" || element == "uint8_t") && gap != "" && Spaces(gap) && name != "" && WordChars(name)
      && Spaces(s1) && Spaces(s2) && Spaces(s3) && Spaces(s4)
      && (progmem == "" || (|progmem| >= 7 && progmem[..7] == "PROGMEM" && Spaces(progmem[7..])))
    }

    function Written(): (s: string)
      ensures s != "" && s[|s| - 1] == '{'
    {
      (storage + linkage + sign + element + gap + name + s1 + "[" + s2 + "]" + s3 + progmem + "=" + s4) + "{"
    }
  }

  predicate Closes(t: string, j: nat, group: string) {
    && j + |group| < |t| && t[j..j + |group|] == group && t[j + |group|] == '}'
    && group != "" && '}' !in group
  }

  predicate MatchesAt(t: string, m: Match, i: nat) {
    m.Valid() && i + |m.Written()| <= |t| && t[i..i + |m.Written()|] == m.Written()
  }

  /** The declaration pattern matches somewhere with `group` between its braces. */
  ghost predicate Captures(t: string, group: string) {
    exists m: Match, i: nat :: MatchesAt(t, m, i) && Closes(t, i + |m.Written()|, group)
  }

  /** The bare pattern, tried when the first one matches nowhere. */
  ghost predicate CapturesBare(t: string, group: string) {
    exists i: nat :: i < |t| && t[i] == '{' && Closes(t, i + 1, group)
                     && i + |group| + 2 < |t| && t[i + |group| + 2] == ';'
  }

  function DigitValue(c: char): (v: int)
    ensures -1 <= v < 16
  {
    if '0' <= c <= '9' then c as int - '0' as int
    else if 'a' <= c <= 'f' then c as int - 'a' as int + 10
    else if 'A' <= c <= 'F' then c as int - 'A' as int + 10
    else -1
  }

  /** All the 0xHH in a text, left to right. */
  function HexValues(s: string): seq<int>
    decreases |s|
  {
    if |s| < 4 then []
    else if s[0] == '0' && s[1] == 'x' && DigitValue(s[2]) >= 0 && DigitValue(s[3]) >= 0
    then [DigitValue(s[2]) * 16 + DigitValue(s[3])] + HexValues(s[4..])
    else HexValues(s[1..])
  }

  function WordLength(s: string): (n: nat)
    ensures n <= |s|
  {
    if s == "" || !IsWordChar(s[0]) then 0 else 1 + WordLength(s[1..])
  }

  function Number(s: string): nat
    requires forall i :: 0 <= i < |s| ==> IsDigit(s[i])
  {
    if s == "" then 0
    else
      var tens, ones := Number(s[..|s| - 1]), DigitValue(s[|s| - 1]);
      assert IsDigit(s[|s| - 1]) && ones >= 0;
      tens * 10 + ones
  }

  /** The words of one to three digits that make a byte. */
  function DecimalValues(s: string): seq<int>
    decreases |s|
  {
    if s == "" then []
    else if !IsWordChar(s[0]) then DecimalValues(s[1..])
    else
      var n := WordLength(s);
      (if n <= 3 && (forall i :: 0 <= i < n ==> IsDigit(s[i])) && Number(s[..n]) <= 255 then [Number(s[..n])] else [])
      + DecimalValues(s[n..])
  }

  function Values(group: string): seq<int> {
    if HexValues(group) != [] then HexValues(group) else DecimalValues(group)
  }

  /** What extract_array_from_cpp may return, whichever match its search takes. */
  ghost predicate Extracts(content: string, r: Option<seq<int>>) {
    var t := StripBlockComments(StripLineComments(content));
    if exists g :: Captures(t, g) then exists g :: Captures(t, g) && r == Some(Values(g))
    else if exists g :: CapturesBare(t, g) then exists g :: CapturesBare(t, g) && r == Some(Values(g))
    else r == None
  }

  // ---- the values between the braces ----

  lemma {:induction false} SkipPlain(p: string, rest: string)
    requires '0' !in p
    ensures HexValues(p + rest) == HexValues(rest)
  {
    if p == "" {
      assert p + rest == rest;
    } else {
      assert (p + rest)[1..] == p[1..] + rest && (p + rest)[0] == p[0];
      SkipPlain(p[1..], rest);
    }
  }

  /** A printed number reads back, in digits alone and without a leading zero. */
  lemma {:induction false} DecimalReads(n: nat)
    ensures Decimal(n) != "" && forall i :: 0 <= i < |Decimal(n)| ==> IsDigit(Decimal(n)[i])
    ensures Number(Decimal(n)) == n
    ensures Decimal(n)[0] == '0' <==> n == 0
  {
    DigitReads(n % 10);
    if n >= 10 {
      DecimalReads(n / 10);
      var tens := Decimal(n / 10);
      assert Decimal(n)[..|Decimal(n)| - 1] == tens;
    }
  }

  lemma DigitReads(n: nat)
    requires n < 10
    ensures var c := "0123456789"[n]; DigitValue(c) == n && IsDigit(c) && (c == '0' <==> n == 0)
  {
  }

  lemma HexDigitReads(n: nat)
    requires n < 16
    ensures DigitValue(HexDigit(n)) == n
  {
  }

  lemma ByteReads(b: byte, rest: string)
    ensures HexValues(HexByte(b) + rest) == [b as int] + HexValues(rest)
  {
    HexDigitReads(b as nat / 16);
    HexDigitReads(b as nat % 16);
    assert (HexByte(b) + rest)[4..] == rest;
  }

  function Ints(data: Text): (r: seq<int>)
    ensures |r| == |data|
  {
    seq(|data|, i requires 0 <= i < |data| => data[i] as int)
  }

  lemma {:induction false} JoinReads(chunk: Text, rest: string)
    ensures HexValues(Join(chunk) + rest) == Ints(chunk) + HexValues(rest)
  {
    if chunk == [] {
      assert Join(chunk) + rest == rest;
    } else if |chunk| == 1 {
      ByteReads(chunk[0], rest);
      assert Ints(chunk) == [chunk[0] as int];
    } else {
      var more := Join(chunk[1..]) + rest;
      Regroup(HexByte(chunk[0]), ", ", Join(chunk[1..]), rest);
      ByteReads(chunk[0], ", " + more);
      SkipPlain(", ", more);
      JoinReads(chunk[1..], rest);
      IntsCons(chunk, HexValues(rest));
    }
  }

  lemma Regroup(a: string, b: string, c: string, d: string)
    ensures a + b + c + d == a + (b + (c + d))
  {
  }

  lemma IntsCons(chunk: Text, more: seq<int>)
    requires chunk != []
    ensures [chunk[0] as int] + (Ints(chunk[1..]) + more) == Ints(chunk) + more
  {
    assert Ints(chunk) == [chunk[0] as int] + Ints(chunk[1..]);
  }

  lemma IntsSplit(data: Text, n: nat, more: seq<int>)
    requires n <= |data|
    ensures Ints(data[..n]) + (Ints(data[n..]) + more) == Ints(data) + more
  {
    assert Ints(data) == Ints(data[..n]) + Ints(data[n..]);
  }

  lemma LineReads(data: Text, below: string)
    requires data != []
    ensures HexValues(Line(data) + "\n" + below) == Ints(data[..Width(data)]) + HexValues(below)
  {
    var chunk, end := data[..Width(data)], (if Width(data) < |data| then "," else "") + "\n";
    assert Line(data) + "\n" + below == "    " + (Join(chunk) + (end + below));
    SkipPlain("    ", Join(chunk) + (end + below));
    JoinReads(chunk, end + below);
    SkipPlain(end, below);
  }

  lemma {:induction false} BodyReads(data: Text, rest: string)
    ensures HexValues(Body(data) + rest) == Ints(data) + HexValues(rest)
    decreases |data|
  {
    if data == [] {
      assert Body(data) + rest == rest;
    } else {
      var n := Width(data);
      Reassociate(Line(data), "\n", Body(data[n..]), rest);
      LineReads(data, Body(data[n..]) + rest);
      BodyReads(data[n..], rest);
      IntsSplit(data, n, HexValues(rest));
    }
  }

  /** What stands between the printed braces. */
  function Group(data: Text): string { "\n" + Body(data) }

  lemma GroupReads(data: Text)
    ensures Values(Group(data)) == Ints(data)
  {
    SkipPlain("\n", Body(data));
    BodyReads(data, "");
    assert Body(data) + "" == Body(data);
    if data == [] {
      assert Group(data) == "\n";
      assert DecimalValues("\n") == DecimalValues("\n"[1..]) == [];
    }
  }

  // ---- finding the braces ----

  /** Text without anything the parser's patterns hang on. */
  predicate Plain(s: string) {
    '/' !in s && '{' !in s && '}' !in s
  }

  lemma PlainBytes(b: byte)
    ensures Plain(HexByte(b))
  {
  }

  lemma {:induction false} PlainJoin(chunk: Text)
    ensures Plain(Join(chunk))
  {
    if chunk != [] {
      PlainBytes(chunk[0]);
      if |chunk| > 1 { PlainJoin(chunk[1..]); }
    }
  }

  lemma {:induction false} PlainBody(data: Text)
    ensures Plain(Body(data))
    decreases |data|
  {
    if data != [] {
      PlainJoin(data[..Width(data)]);
      PlainBody(data[Width(data)..]);
    }
  }

  lemma {:induction false} PlainDecimal(n: nat)
    ensures Plain(Decimal(n)) && '\n' !in Decimal(n)
  {
    if n >= 10 { PlainDecimal(n / 10); }
  }

  lemma {:induction false} NoLineComment(s: string)
    requires '/' !in s
    ensures StripLineComments(s) == s
  {
    if |s| >= 2 {
      NoLineComment(s[1..]);
      assert [s[0]] + s[1..] == s;
    }
  }

  lemma {:induction false} NoBlockComment(s: string)
    requires '/' !in s
    ensures StripBlockComments(s) == s
  {
    if |s| >= 2 {
      NoBlockComment(s[1..]);
      assert [s[0]] + s[1..] == s;
    }
  }

  lemma {:induction false} DropsToLineEnd(line: string, rest: string)
    requires '\n' !in line
    ensures DropLine(line + "\n" + rest) == "\n" + rest
  {
    if line == "" {
      assert line + "\n" + rest == "\n" + rest;
    } else {
      DropsToLineEnd(line[1..], rest);
      assert (line + "\n" + rest)[1..] == line[1..] + "\n" + rest;
    }
  }

  /** The printed comment goes, up to its line end, and nothing else does. */
  lemma OnlyCommentGoes(line: string, t: string)
    requires '\n' !in line && t != "" && t[0] == '\n' && '/' !in t
    ensures StripBlockComments(StripLineComments("//" + line + t)) == t
  {
    assert "\n" + t[1..] == t;
    assert ("//" + line + t)[2..] == line + t == line + "\n" + t[1..];
    DropsToLineEnd(line, t[1..]);
    NoLineComment(t);
    NoBlockComment(t);
  }

  lemma OneBrace(head: string, group: string, tail: string, k: nat)
    requires '{' !in head && '{' !in group && '{' !in tail
    requires k < |head| + |group| + |tail| + 2 && (head + "{" + group + "}" + tail)[k] == '{'
    ensures k == |head|
  {
  }

  lemma NoEarlierEnd(t: string, j: nat, a: string)
    requires j + |a| < |t| && t[j..j + |a|] == a && '}' !in a
    ensures forall k :: j <= k < j + |a| ==> t[k] != '}'
  {
    forall k | j <= k < j + |a| ensures t[k] != '}' {
      assert t[k] == a[k - j];
    }
  }

  lemma SameEnd(t: string, j: nat, a: string, b: string)
    requires j + |a| < |t| && t[j..j + |a|] == a && '}' !in a && t[j + |a|] == '}'
    requires j + |b| < |t| && t[j..j + |b|] == b && '}' !in b && t[j + |b|] == '}'
    ensures a == b
  {
    NoEarlierEnd(t, j, a);
    NoEarlierEnd(t, j, b);
  }

  lemma GroupIsThere(head: string, group: string, tail: string)
    ensures var t, j := head + "{" + group + "}" + tail, |head| + 1;
            t[j..j + |group|] == group && t[j + |group|] == '}' && t[..j] == head + "{"
  {
  }

  /** In a text with one opening brace, every match has the same group. */
  lemma OneGroup(head: string, group: string, tail: string, g: string)
    requires '{' !in head && '{' !in group && '}' !in group && '{' !in tail
    requires Captures(head + "{" + group + "}" + tail, g)
    ensures g == group
  {
    var m, i: nat :| MatchesAt(head + "{" + group + "}" + tail, m, i)
                     && Closes(head + "{" + group + "}" + tail, i + |m.Written()|, g);
    MatchHasGroup(head, group, tail, g, m, i);
  }

  lemma MatchHasGroup(head: string, group: string, tail: string, g: string, m: Match, i: nat)
    requires '{' !in head && '{' !in group && '}' !in group && '{' !in tail
    requires MatchesAt(head + "{" + group + "}" + tail, m, i)
    requires Closes(head + "{" + group + "}" + tail, i + |m.Written()|, g)
    ensures g == group
  {
    EndsAtTheBrace(head, group, tail, m, i);
    GroupIsWhole(head, group, tail, g);
  }

  lemma GroupIsWhole(head: string, group: string, tail: string, g: string)
    requires '}' !in group && Closes(head + "{" + group + "}" + tail, |head| + 1, g)
    ensures g == group
  {
    GroupIsThere(head, group, tail);
    SameEnd(head + "{" + group + "}" + tail, |head| + 1, group, g);
  }

  lemma EndsAtTheBrace(head: string, group: string, tail: string, m: Match, i: nat)
    requires '{' !in head && '{' !in group && '{' !in tail
    requires MatchesAt(head + "{" + group + "}" + tail, m, i)
    ensures i + |m.Written()| == |head| + 1
  {
    EndsWithBrace(head + "{" + group + "}" + tail, m, i);
    OneBrace(head, group, tail, i + |m.Written()| - 1);
  }

  lemma EndsWithBrace(t: string, m: Match, i: nat)
    requires MatchesAt(t, m, i)
    ensures i + |m.Written()| >= 1 && t[i + |m.Written()| - 1] == '{'
  {
    var w := m.Written();
    assert t[i..i + |w|][|w| - 1] == w[|w| - 1];
  }

  /** The declaration as printed is a match of the pattern. */
  lemma DeclarationMatches(name: string) returns (m: Match)
    requires name != "" && WordChars(name)
    ensures m.Valid() && m.Written() == Declaration(name)
  {
    m := Match("const ", "", "unsigned ", "char", " ", name, "", "", " ", "PROGMEM ", " ");
    assert "const "[..5] == "const" && "unsigned "[..8] == "unsigned" && "PROGMEM "[..7] == "PROGMEM";
    assert m.storage + m.linkage + m.sign + m.element + m.gap == "const unsigned char ";
    Spelled("const unsigned char " + name);
  }

  lemma Spelled(front: string)
    ensures (front + "" + "[" + "" + "]" + " " + "PROGMEM " + "=" + " ") + "{" == front + "[] PROGMEM = {"
  {
    assert "" + "[" + "" + "]" + " " + "PROGMEM " + "=" + " " + "{" == "[] PROGMEM = {";
  }

  // ---- the round trip ----

  /** The declaration up to its brace. */
  function Opening(name: string): string { "\n" + "const unsigned char " + name + "[] PROGMEM = " }

  /** The end of the array and its length. */
  function Ending(name: string, n: nat): string { ";" + "\n" + Length(name, n) }

  lemma PrintedParts(name: string, data: Text, line: string)
    ensures Printed(name, data, "//" + line) ==
              "//" + line + (Opening(name) + "{" + Group(data) + "}" + Ending(name, |data|))
  {
    assert Declaration(name) == "const unsigned char " + name + "[] PROGMEM = " + "{";
  }

  lemma PlainName(name: string)
    requires WordChars(name)
    ensures Plain(name)
  {
  }

  lemma PlainTogether(a: string, b: string)
    requires Plain(a) && Plain(b)
    ensures Plain(a + b)
  {
  }

  lemma PlainOpening(name: string)
    requires WordChars(name)
    ensures Plain(Opening(name))
  {
    PlainName(name);
    PlainTogether("\n" + "const unsigned char ", name);
    PlainTogether("\n" + "const unsigned char " + name, "[] PROGMEM = ");
  }

  lemma PlainEnding(name: string, n: nat)
    requires WordChars(name)
    ensures Plain(Ending(name, n))
  {
    PlainName(name);
    PlainDecimal(n);
    PlainTogether("const unsigned int ", name);
    PlainTogether("const unsigned int " + name, "_len = ");
    PlainTogether("const unsigned int " + name + "_len = ", Decimal(n));
    PlainTogether("const unsigned int " + name + "_len = " + Decimal(n), ";");
    PlainTogether(";" + "\n", Length(name, n));
  }

  lemma PlainParts(name: string, data: Text)
    requires WordChars(name)
    ensures Plain(Opening(name)) && Plain(Group(data)) && Plain(Ending(name, |data|))
  {
    PlainOpening(name);
    PlainBody(data);
    PlainTogether("\n", Body(data));
    PlainEnding(name, |data|);
  }

  lemma DeclarationIsThere(name: string, t: string)
    requires |t| > |Opening(name)| && t[..|Opening(name)| + 1] == Opening(name) + "{"
    ensures |Declaration(name)| == |Opening(name)| && t[1..|Opening(name)| + 1] == Declaration(name)
  {
    assert Opening(name) + "{" == "\n" + Declaration(name);
    assert t[1..|Opening(name)| + 1] == t[..|Opening(name)| + 1][1..];
  }

  lemma GroupIsCaptured(name: string, data: Text, tail: string)
    requires name != "" && WordChars(name)
    ensures Captures(Opening(name) + "{" + Group(data) + "}" + tail, Group(data))
  {
    var head, group := Opening(name), Group(data);
    var t := head + "{" + group + "}" + tail;
    PlainBody(data);
    GroupIsThere(head, group, tail);
    var m := DeclarationMatches(name);
    DeclarationIsThere(name, t);
    assert MatchesAt(t, m, 1);
    assert Closes(t, 1 + |m.Written()|, group);
  }

  /** Whatever match the parser takes, it gets the printed bytes back, for every length. */
  lemma PrintedParsesBack(name: string, data: Text, width: nat, height: nat, filename: string, r: Option<seq<int>>)
    requires name != "" && WordChars(name) && '\n' !in filename
    ensures Extracts(Printed(name, data, Comment(filename, width, height, |data|)), r) <==> r == Some(Ints(data))
  {
    var line := CommentText(filename, width, height, |data|);
    CommentIsOneLine(filename, width, height, |data|);
    var t := Opening(name) + "{" + Group(data) + "}" + Ending(name, |data|);
    PrintedParts(name, data, line);
    PlainParts(name, data);
    OnlyCommentGoes(line, t);
    GroupIsCaptured(name, data, Ending(name, |data|));
    GroupReads(data);
    forall g | Captures(t, g) ensures g == Group(data) {
      OneGroup(Opening(name), Group(data), Ending(name, |data|), g);
    }
  }

  lemma CommentIsOneLine(filename: string, width: nat, height: nat, n: nat)
    requires '\n' !in filename
    ensures '\n' !in CommentText(filename, width, height, n)
  {
    PlainDecimal(width);
    PlainDecimal(height);
    PlainDecimal(n);
    assert '\n' !in Size(width, height);
  }
}
