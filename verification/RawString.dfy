/**
 Embedding a Python file in the firmware as a C++ raw string literal, and the lexer of
 [lex.string] (section 2.14.5 of ISO C++11) that reads it back.
 */
module RawString {
  import opened Wrappers

  // ---- the C++ lexer ----

  /** Characters a raw string's delimiter may have. */
  predicate IsDelimiterChar(c: char) {
    '!' <= c <= '~' && c != '(' && c != ')' && c != '\\' && c != '"'
  }

  const MAX_DELIMITER: nat := 16

  predicate At(text: string, i: nat, pattern: string) {
    i + |pattern| <= |text| && text[i..i + |pattern|] == pattern
  }

  predicate Contains(text: string, pattern: string) {
    exists i: nat :: i <= |text| && At(text, i, pattern)
  }

  /** The first place of a pattern from i on. */
  function Find(text: string, pattern: string, i: nat): (r: Option<nat>)
    ensures r.Some? ==> i <= r.value && At(text, r.value, pattern)
    decreases |text| - i
  {
    if At(text, i, pattern) then Some(i)
    else if i >= |text| then None
    else Find(text, pattern, i + 1)
  }

  function Closing(delimiter: string): string { ")" + delimiter + "\"" }

  /** The same from behind the opening parenthesis. */
  function LexBody(text: string, delimiter: string, from: nat): Option<(string, string)>
    requires from <= |text|
  {
    if |delimiter| > MAX_DELIMITER || exists k :: 0 <= k < |delimiter| && !IsDelimiterChar(delimiter[k]) then None
    else
      match Find(text, Closing(delimiter), from)
      case None => None
      case Some(close) => Some((text[from..close], text[close + |Closing(delimiter)|..]))
  }

  /** What a raw string literal at the start of `text` stands for, and the text after it. */
  function Lex(text: string): Option<(string, string)> {
    if !At(text, 0, "R\"") then None
    else
      match Find(text, "(", 2)
      case None => None
      case Some(open) => LexBody(text, text[2..open], open + 1)
  }

  // ---- the script ----

  function Equals(k: nat): (r: string)
    ensures |r| == k && forall i :: 0 <= i < k ==> r[i] == '='
  {
    if k == 0 then "" else Equals(k - 1) + "="
  }

  function Head(delimiter: string): string { "R\"" + delimiter + "(" }

  function Literal(delimiter: string, content: string): string {
    Head(delimiter) + content + Closing(delimiter)
  }

  lemma {:induction false} FindsFirst(text: string, pattern: string, i: nat, first: nat)
    requires i <= first && At(text, first, pattern)
    requires forall j: nat :: i <= j < first ==> !At(text, j, pattern)
    ensures Find(text, pattern, i) == Some(first)
    decreases first - i
  {
    if i < first { FindsFirst(text, pattern, i + 1, first); }
  }

  /** A closing sequence of equal signs cannot begin inside the content and end behind it. */
  lemma NoClosingBefore(k: nat, content: string, head: string, j: nat)
    requires !Contains(content, Closing(Equals(k)))
    requires |head| <= j < |head| + |content|
    ensures !At(head + content + Closing(Equals(k)), j, Closing(Equals(k)))
  {
    var closing := Closing(Equals(k));
    var text := head + content + closing;
    var end := |head| + |content|;
    if j + |closing| <= end {
      assert content[j - |head|..j - |head| + |closing|] == text[j..j + |closing|];
      assert !At(content, j - |head|, closing);
    } else if j + |closing| <= |text| {
      assert text[j..j + |closing|][end - j] == text[end] == ')' != closing[end - j];
    }
  }

  /** The first parenthesis ends the delimiter. */
  lemma FindsOpen(k: nat, rest: string)
    ensures var text := Head(Equals(k)) + rest;
            && At(text, 0, "R\"") && Find(text, "(", 2) == Some(2 + k) && text[2..2 + k] == Equals(k)
  {
    var d := Equals(k);
    var text := Head(d) + rest;
    forall j: nat | 2 <= j < 2 + k ensures !At(text, j, "(") {
      assert text[j..j + 1][0] == d[j - 2];
    }
    assert text[2 + k..2 + k + 1] == "(";
    FindsFirst(text, "(", 2, 2 + k);
  }

  /** From anywhere in the content on, the first closing sequence is the one behind it. */
  lemma {:induction false} FindsClose(k: nat, content: string, head: string, j: nat, text: string)
    requires !Contains(content, Closing(Equals(k))) && text == head + content + Closing(Equals(k))
    requires |head| <= j <= |head| + |content|
    ensures Find(text, Closing(Equals(k)), j) == Some(|head| + |content|)
    decreases |head| + |content| - j
  {
    if j < |head| + |content| {
      NoClosingBefore(k, content, head, j);
      FindsClose(k, content, head, j + 1, text);
    } else {
      AtEnd(head + content, Closing(Equals(k)));
    }
  }

  lemma AtEnd(text: string, pattern: string)
    ensures At(text + pattern, |text|, pattern)
  {
    assert (text + pattern)[|text|..] == pattern;
  }

  lemma LiteralIs(delimiter: string, content: string)
    ensures Literal(delimiter, content) == "R\"" + delimiter + "(" + content + ")" + delimiter + "\""
  {
  }

  lemma Regroup(a: string, b: string, c: string)
    ensures (a + b) + c == a + (b + c)
  {
  }

  lemma Pieces(text: string, head: string, content: string, closing: string)
    requires text == head + content + closing
    ensures |text| == |head| + |content| + |closing| && text[|head|..|head| + |content|] == content
  {
  }

  /** Lexing the literal gives back the content exactly, and leaves nothing over. */
  lemma LexLiteral(k: nat, content: string)
    requires k <= MAX_DELIMITER && !Contains(content, Closing(Equals(k)))
    ensures Lex(Literal(Equals(k), content)) == Some((content, ""))
  {
    LexOpens(k, content);
    LexCloses(k, content);
  }

  lemma LexOpens(k: nat, content: string)
    ensures Lex(Literal(Equals(k), content)) == LexBody(Literal(Equals(k), content), Equals(k), |Head(Equals(k))|)
  {
    Regroup(Head(Equals(k)), content, Closing(Equals(k)));
    FindsOpen(k, content + Closing(Equals(k)));
  }

  lemma LexCloses(k: nat, content: string)
    requires k <= MAX_DELIMITER && !Contains(content, Closing(Equals(k)))
    ensures LexBody(Literal(Equals(k), content), Equals(k), |Head(Equals(k))|) == Some((content, ""))
  {
    var d, text := Equals(k), Literal(Equals(k), content);
    FindsClose(k, content, Head(d), |Head(d)|, text);
    Pieces(text, Head(d), content, Closing(d));
    LexBodyIs(text, d, |Head(d)|, |Head(d)| + |content|, content);
  }

  lemma LexBodyIs(text: string, d: string, from: nat, close: nat, content: string)
    requires from <= close && close + |Closing(d)| == |text|
    requires |d| <= MAX_DELIMITER && forall i :: 0 <= i < |d| ==> IsDelimiterChar(d[i])
    requires Find(text, Closing(d), from) == Some(close) && text[from..close] == content
    ensures LexBody(text, d, from) == Some((content, ""))
  {
    assert text[|text|..] == "";
  }

  /** The delimiters that are tried when the plain form does not do: three to twelve equal signs. */
  predicate NoneFits(content: string) {
    Contains(content, Closing("")) && forall k: nat :: 3 <= k <= 12 ==> Contains(content, Closing(Equals(k)))
  }

  /** py_to_c_string; None is its exception. */
  method PyToCString(content: string) returns (r: Option<string>)
    ensures r.Some? ==> Lex(r.value) == Some((content, ""))
    ensures r.None? <==> NoneFits(content)
  {
    assert Equals(0) == "";
    if Contains(content, ")\"") {
      assert Closing("") == ")\"";
      var delimiter, attempt := "===", 0;
      assert Equals(3) == "===";
      while Contains(content, ")" + delimiter + "\"") && attempt < 10
        invariant 0 <= attempt <= 10 && delimiter == Equals(3 + attempt)
        invariant forall k: nat :: 3 <= k < 3 + attempt ==> Contains(content, Closing(Equals(k)))
      {
        delimiter := delimiter + "=";
        attempt := attempt + 1;
      }
      if attempt >= 10 { return None; }
      LexLiteral(3 + attempt, content);
      LiteralIs(delimiter, content);
      return Some("R\"" + delimiter + "(" + content + ")" + delimiter + "\"");
    } else {
      assert Closing("") == ")\"";
      LexLiteral(0, content);
      LiteralIs("", content);
      assert Literal("", content) == "R\"(" + content + ")\"";
      return Some("R\"(" + content + ")\"");
    }
  }
}
