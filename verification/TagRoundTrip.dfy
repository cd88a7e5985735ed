/**
 What the tag parser does to a whole stream of plain texts, tags and commands, each byte with its
 own surroundings: the commands whose closing tag comes in time and at a good moment are
 dispatched, in order, and what the others leave behind is said exactly.
 */
module TagRoundTrip {
  import opened Wrappers
  import opened TagParser

  /** A byte, and what the parser's surroundings are when it comes. */
  datatype Byte = Byte(c: char, e: Env)

  type Stream = seq<Byte>

  function Chars(t: Stream): (s: string)
    ensures |s| == |t|
  {
    seq(|t|, i requires 0 <= i < |t| => t[i].c)
  }

  /** No byte comes while the Arduino is flashed. */
  predicate Quiet(t: Stream) { forall i :: 0 <= i < |t| ==> !t[i].e.flashing }

  /** What came of feeding a stream: the parser, the bytes it let through, the commands. */
  datatype Fed = Fed(parser: Parser, forwarded: string, commands: seq<Command>)

  function Dispatches(d: Option<Command>): seq<Command> {
    match d case None => [] case Some(c) => [c]
  }

  function Then(a: Fed, b: Fed): Fed {
    Fed(b.parser, a.forwarded + b.forwarded, a.commands + b.commands)
  }

  function FeedOne(p: Parser, b: Byte): Fed {
    var o := Step(p, b.c, b.e);
    Fed(o.parser, if o.forward then [b.c] else "", Dispatches(o.dispatched))
  }

  type Machine = (Parser, Byte) -> Fed

  function Tags(): Machine {
    (p: Parser, b: Byte) => FeedOne(p, b)
  }

  function Feed(m: Machine, p: Parser, t: Stream): Fed
    decreases t
  {
    if t == [] then Fed(p, "", [])
    else Then(m(p, t[0]), Feed(m, m(p, t[0]).parser, t[1..]))
  }

  lemma ThenAssociates(a: Fed, b: Fed, c: Fed)
    ensures Then(a, Then(b, c)) == Then(Then(a, b), c)
  {
  }

  lemma {:induction false} FeedAppend(m: Machine, p: Parser, a: Stream, b: Stream)
    ensures Feed(m, p, a + b) == Then(Feed(m, p, a), Feed(m, Feed(m, p, a).parser, b))
    decreases a
  {
    if a == [] {
      assert a + b == b;
    } else {
      var one := m(p, a[0]);
      var rest := Feed(m, one.parser, a[1..]);
      FeedAppend(m, one.parser, a[1..], b);
      assert (a + b)[0] == a[0] && (a + b)[1..] == a[1..] + b;
      ThenAssociates(one, rest, Feed(m, rest.parser, b));
    }
  }

  lemma FeedCons(m: Machine, p: Parser, t: Stream, one: Fed, rest: Fed)
    requires t != [] && m(p, t[0]) == one && Feed(m, one.parser, t[1..]) == rest
    ensures Feed(m, p, t) == Then(one, rest)
  {
  }

  lemma SplitJoins(t: Stream, k: nat)
    requires k <= |t|
    ensures t[..k] + t[k..] == t
  {
  }

  lemma FeedInTwo(m: Machine, p: Parser, t: Stream, k: nat, fa: Fed, fb: Fed)
    requires k <= |t| && Feed(m, p, t[..k]) == fa && Feed(m, fa.parser, t[k..]) == fb
    ensures Feed(m, p, t) == Then(fa, fb)
  {
    FeedAppend(m, p, t[..k], t[k..]);
    SplitJoins(t, k);
  }

  lemma FeedLast(m: Machine, p: Parser, t: Stream, f: Fed)
    requires t != [] && Feed(m, p, t[..|t| - 1]) == f
    ensures Feed(m, p, t) == Then(f, m(f.parser, t[|t| - 1]))
  {
    var k := |t| - 1;
    assert t[k..] == [t[k]];
    FeedChar(m, f.parser, t[k]);
    FeedInTwo(m, p, t, k, f, m(f.parser, t[k]));
  }

  lemma FeedChar(m: Machine, p: Parser, b: Byte)
    ensures Feed(m, p, [b]) == m(p, b)
  {
    assert Feed(m, m(p, b).parser, [b][1..]) == Fed(m(p, b).parser, "", []);
    assert Then(m(p, b), Fed(m(p, b).parser, "", [])) == m(p, b);
  }

  /** A byte that strip mode withholds and the other modes let through. */
  function LetOne(b: Byte): string { if b.e.strip then "" else [b.c] }

  function Let(t: Stream): string {
    if t == [] then "" else LetOne(t[0]) + Let(t[1..])
  }

  lemma {:induction false} LetAppend(a: Stream, b: Stream)
    ensures Let(a + b) == Let(a) + Let(b)
  {
    if a == [] {
      assert a + b == b;
    } else {
      LetAppend(a[1..], b);
      assert (a + b)[1..] == a[1..] + b;
      Regroup(LetOne(a[0]), Let(a[1..]), Let(b));
    }
  }

  lemma LetSplit(t: Stream, k: nat)
    requires k <= |t|
    ensures Let(t) == Let(t[..k]) + Let(t[k..])
  {
    LetAppend(t[..k], t[k..]);
    SplitJoins(t, k);
  }

  lemma LetLast(t: Stream)
    requires t != []
    ensures Let(t) == Let(t[..|t| - 1]) + LetOne(t[|t| - 1])
  {
    LetSplit(t, |t| - 1);
    assert t[|t| - 1..][1..] == [];
    assert LetOne(t[|t| - 1]) + "" == LetOne(t[|t| - 1]);
  }

  lemma Regroup(a: string, b: string, c: string)
    ensures (a + b) + c == a + (b + c)
  {
  }

  lemma CharsSplit(t: Stream, a: string, b: string)
    requires Chars(t) == a + b
    ensures |t| == |a| + |b| && Chars(t[..|a|]) == a && Chars(t[|a|..]) == b
  {
    assert |t| == |a + b|;
    forall i | 0 <= i < |a| ensures t[i].c == a[i] { assert Chars(t)[i] == (a + b)[i]; }
    forall i | 0 <= i < |b| ensures t[|a| + i].c == b[i] { assert Chars(t)[|a| + i] == (a + b)[|a| + i]; }
  }

  lemma CharsTail(t: Stream)
    requires t != []
    ensures Chars(t) == [t[0].c] + Chars(t[1..])
  {
  }

  // ---- single bytes ----

  function BodyStep(p: Parser, c: char): Parser {
    BodyByte(p.(chars := p.chars + 1), c)
  }

  function Opened(p: Parser): Parser {
    var python := p.tag == PYTHON_TAG;
    p.(mode := InCommand, current := p.tag, body := "", chars := 0,
       needsPrefix := python || p.needsPrefix, seenFirst := !python && p.seenFirst)
  }

  function Closed(p: Parser): Parser {
    p.(mode := Searching, current := "", body := "", needsPrefix := false, seenFirst := false,
       chars := p.chars + 1)
  }

  /** The body is gone, and nothing else. */
  function Dropped(p: Parser): Parser { p.(mode := Searching, body := "", chars := p.chars + 1) }

  function Dispatched(p: Parser): seq<Command> {
    if p.body == "" then [] else [Command(p.current == PYTHON_TAG, CString(p.body))]
  }

  /** A command is taken: the system is up, nothing is being flashed, the time after a flash is over
      or the other core idle, the filesystem is free and the last command was fetched. */
  predicate Served(e: Env) {
    e.startupComplete && !e.flashing && !e.coolingDown && e.filesystemFree && e.slotFree
  }

  // All that the round trip needs to know about the parser.

  ghost predicate SearchSteps(m: Machine) {
    forall p: Parser, b: Byte {:trigger m(p, b)} :: p.mode == Searching && !b.e.flashing ==>
      m(p, b) == if b.c == '<' then Fed(p.(mode := Detecting, tag := "", chars := 0), LetOne(b), [])
                 else Fed(p, [b.c], [])
  }

  ghost predicate TimeoutSteps(m: Machine) {
    forall p: Parser, b: Byte {:trigger m(p, b)} :: p.mode != Searching && p.chars >= TIMEOUT && !b.e.flashing ==>
      m(p, b) == Fed(RESET, [b.c], [])
  }

  ghost predicate NameSteps(m: Machine) {
    forall p: Parser, b: Byte {:trigger m(p, b)} ::
      p.mode == Detecting && p.chars < TIMEOUT && b.c != '>' && |p.tag| < TAG_MAX && !b.e.flashing ==>
      m(p, b) == Fed(p.(tag := p.tag + [b.c], chars := p.chars + 1), LetOne(b), [])
  }

  ghost predicate OpenSteps(m: Machine) {
    forall p: Parser, b: Byte {:trigger m(p, b)} ::
      p.mode == Detecting && p.chars < TIMEOUT && b.c == '>' && IsCommandTag(p.tag) && !b.e.flashing ==>
      m(p, b) == Fed(Opened(p), LetOne(b), [])
  }

  predicate Closes(tag: string) { tag != "" && tag[0] == '/' }

  ghost predicate OtherSteps(m: Machine) {
    forall p: Parser, b: Byte {:trigger m(p, b)} ::
      p.mode == Detecting && p.chars < TIMEOUT && b.c == '>' && !Closes(p.tag) && !IsCommandTag(CString(p.tag)) && !b.e.flashing ==>
      m(p, b) == Fed(p.(mode := Searching, chars := p.chars + 1), [b.c], [])
  }

  ghost predicate CloseSteps(m: Machine) {
    forall p: Parser, b: Byte {:trigger m(p, b)} ::
      p.mode == Detecting && p.chars < TIMEOUT && b.c == '>' && Closes(p.tag) && !b.e.flashing ==>
      m(p, b) == if CString(p.tag[1..]) != p.current then Fed(Dropped(p), LetOne(b), [])
                 else if p.body != "" && !Served(b.e) then Fed(Dropped(p), LetOne(b), [])
                 else Fed(Closed(p), LetOne(b), Dispatched(p))
  }

  ghost predicate BodySteps(m: Machine) {
    forall p: Parser, b: Byte {:trigger m(p, b)} :: p.mode == InCommand && p.chars < TIMEOUT && !b.e.flashing ==>
      m(p, b) == if b.c == '<' then Fed(p.(mode := Detecting, tag := "", chars := p.chars + 1), LetOne(b), [])
                 else Fed(BodyStep(p, b.c), LetOne(b), [])
  }

  ghost predicate ParsesTags(m: Machine) {
    && SearchSteps(m) && TimeoutSteps(m) && NameSteps(m)
    && OpenSteps(m) && OtherSteps(m) && CloseSteps(m) && BodySteps(m)
  }

  lemma {:induction false} CStringWithoutNul(s: string)
    requires '\0' !in s
    ensures CString(s) == s
  {
    if s != "" {
      CStringWithoutNul(s[1..]);
      assert [s[0]] + s[1..] == s;
    }
  }

  predicate Letters(s: string) {
    forall c :: c in s ==> 'A' <= c <= 'z'
  }

  lemma TagsAreLetters(i: nat)
    requires i < |COMMAND_TAGS|
    ensures 0 < |COMMAND_TAGS[i]| < 18 && Letters(COMMAND_TAGS[i])
  {
    if i == 0 { assert COMMAND_TAGS[i] == "jumperlessCommand"; }
    else if i == 1 { assert COMMAND_TAGS[i] == "j"; }
    else if i == 2 { assert COMMAND_TAGS[i] == "jumperless"; }
    else { assert COMMAND_TAGS[i] == PYTHON_TAG; }
  }

  /** What a command tag's name looks like to the parser. */
  predicate IsName(tag: string) {
    0 < |tag| < 18 && '>' !in tag && '<' !in tag && tag[0] != '/'
  }

  lemma TagsAreNames(tag: string)
    requires IsCommandTag(tag)
    ensures IsName(tag) && Letters(tag) && CString(tag) == tag
  {
    var i :| 0 <= i < |COMMAND_TAGS| && COMMAND_TAGS[i] == tag;
    TagsAreLetters(i);
    CStringWithoutNul(tag);
    assert tag[0] in tag;
  }

  lemma EndSteps(p: Parser, b: Byte)
    requires p.mode == Detecting && p.chars < TIMEOUT && b.c == '>' && !b.e.flashing
    ensures IsCommandTag(p.tag) ==> FeedOne(p, b) == Fed(Opened(p), LetOne(b), [])
    ensures !Closes(p.tag) && !IsCommandTag(CString(p.tag)) ==>
              FeedOne(p, b) == Fed(p.(mode := Searching, chars := p.chars + 1), [b.c], [])
  {
    assert Step(p, b.c, b.e) == EndOfTag(p.(chars := p.chars + 1), b.e);
    if IsCommandTag(p.tag) { TagsAreNames(p.tag); }
  }

  lemma StepCloses(p: Parser, b: Byte)
    requires p.mode == Detecting && p.chars < TIMEOUT && b.c == '>' && !b.e.flashing && Closes(p.tag)
    ensures Step(p, b.c, b.e) == EndOfCommand(p.(chars := p.chars + 1), CString(p.tag[1..]), b.e)
  {
  }

  lemma CloseStep(p: Parser, b: Byte)
    requires p.mode == Detecting && p.chars < TIMEOUT && b.c == '>' && !b.e.flashing && Closes(p.tag)
    ensures FeedOne(p, b) ==
            if CString(p.tag[1..]) != p.current then Fed(Dropped(p), LetOne(b), [])
            else if p.body != "" && !Served(b.e) then Fed(Dropped(p), LetOne(b), [])
            else Fed(Closed(p), LetOne(b), Dispatched(p))
  {
    StepCloses(p, b);
  }

  lemma TagsParsePlain()
    ensures SearchSteps(Tags()) && TimeoutSteps(Tags()) && NameSteps(Tags())
  {
  }

  lemma TagsParseBodies()
    ensures BodySteps(Tags())
  {
  }

  lemma TagsParseEnds()
    ensures OpenSteps(Tags()) && OtherSteps(Tags()) && CloseSteps(Tags())
  {
    forall p: Parser, b: Byte | p.mode == Detecting && p.chars < TIMEOUT && b.c == '>' && !b.e.flashing
      ensures IsCommandTag(p.tag) ==> Tags()(p, b) == Fed(Opened(p), LetOne(b), [])
      ensures !Closes(p.tag) && !IsCommandTag(CString(p.tag)) ==>
                Tags()(p, b) == Fed(p.(mode := Searching, chars := p.chars + 1), [b.c], [])
      ensures Closes(p.tag) ==>
                Tags()(p, b) == if CString(p.tag[1..]) != p.current then Fed(Dropped(p), LetOne(b), [])
                                else if p.body != "" && !Served(b.e) then Fed(Dropped(p), LetOne(b), [])
                                else Fed(Closed(p), LetOne(b), Dispatched(p))
    {
      EndSteps(p, b);
      if Closes(p.tag) { CloseStep(p, b); }
    }
  }

  lemma TagsParse()
    ensures ParsesTags(Tags())
  {
    TagsParsePlain();
    TagsParseBodies();
    TagsParseEnds();
  }

  // ---- the phases of a stream ----

  lemma {:induction false} FeedText(m: Machine, p: Parser, t: Stream)
    requires SearchSteps(m) && p.mode == Searching && Quiet(t) && '<' !in Chars(t)
    ensures Feed(m, p, t) == Fed(p, Chars(t), [])
    decreases t
  {
    if t != [] {
      CharsTail(t);
      FeedText(m, p, t[1..]);
      FeedCons(m, p, t, Fed(p, [t[0].c], []), Fed(p, Chars(t[1..]), []));
    }
  }

  /** The parser after more of a tag's name. */
  function Named(p: Parser, s: string): Parser {
    p.(tag := p.tag + s, chars := p.chars + |s|)
  }

  lemma NamedTwice(p: Parser, c: char, s: string)
    ensures Named(Named(p, [c]), s) == Named(p, [c] + s) && Named(p, "") == p
  {
    assert p.tag + [c] + s == p.tag + ([c] + s);
    assert p.tag + "" == p.tag;
  }

  lemma {:induction false} FeedName(m: Machine, p: Parser, t: Stream)
    requires NameSteps(m) && p.mode == Detecting && Quiet(t) && '>' !in Chars(t)
    requires |p.tag| + |t| <= TAG_MAX && p.chars + |t| <= TIMEOUT
    ensures Feed(m, p, t) == Fed(Named(p, Chars(t)), Let(t), [])
    decreases t
  {
    if t == [] {
      NamedTwice(p, ' ', "");
    } else {
      CharsTail(t);
      var q := Named(p, [t[0].c]);
      NamedTwice(p, t[0].c, Chars(t[1..]));
      FeedName(m, q, t[1..]);
      FeedCons(m, p, t, Fed(q, LetOne(t[0]), []), Fed(Named(q, Chars(t[1..])), Let(t[1..]), []));
    }
  }

  /** The parser after a whole body. */
  function AfterBody(p: Parser, s: string): Parser
    decreases s
  {
    if s == "" then p else AfterBody(BodyStep(p, s[0]), s[1..])
  }

  lemma {:induction false} FeedBody(m: Machine, p: Parser, t: Stream)
    requires BodySteps(m) && p.mode == InCommand && Quiet(t) && '<' !in Chars(t) && p.chars + |t| <= TIMEOUT
    ensures Feed(m, p, t) == Fed(AfterBody(p, Chars(t)), Let(t), [])
    decreases t
  {
    if t != [] {
      CharsTail(t);
      var q := BodyStep(p, t[0].c);
      FeedBody(m, q, t[1..]);
      FeedCons(m, p, t, Fed(q, LetOne(t[0]), []), Fed(AfterBody(q, Chars(t[1..])), Let(t[1..]), []));
      assert ([t[0].c] + Chars(t[1..]))[1..] == Chars(t[1..]);
    }
  }

  // ---- what a body becomes ----

  predicate White(c: char) { c in " \t\r\n" }

  /** A python body gets '>' before its first non-blank byte, unless that is one already. */
  function Prefixed(s: string): string {
    if s == "" then ""
    else if White(s[0]) then [s[0]] + Prefixed(s[1..])
    else if s[0] == '>' then s
    else ">" + s
  }

  predicate AllBlank(s: string) { forall i :: 0 <= i < |s| ==> White(s[i]) }

  /** A body buffer holds 255 bytes. */
  function Cut(s: string): string { if |s| <= 255 then s else s[..255] }

  /** What the body buffer holds in the end, with a prefix or without. */
  function Payload(prefix: bool, body: string): string {
    Cut(if prefix then Prefixed(body) else body)
  }

  lemma PayloadEmpty(prefix: bool, body: string)
    ensures Payload(prefix, body) == "" <==> body == ""
  {
  }

  lemma CutAppend(a: string, c: char)
    ensures Cut(a + [c]) == Append(Cut(a), c)
  {
  }

  predicate Waits(p: Parser) { p.needsPrefix && !p.seenFirst }

  lemma OtherByte(p: Parser, c: char, a: string)
    requires p.body == Cut(a) && !Waits(p)
    ensures BodyStep(p, c) == p.(body := Cut(a + [c]), chars := p.chars + 1)
  {
    CutAppend(a, c);
  }

  lemma {:induction false} BodyWithoutPrefix(p: Parser, s: string, a: string)
    requires p.body == Cut(a) && !Waits(p)
    ensures AfterBody(p, s) == p.(body := Cut(a + s), chars := p.chars + |s|)
    decreases s
  {
    if s == "" {
      assert a + s == a;
    } else {
      OtherByte(p, s[0], a);
      BodyWithoutPrefix(BodyStep(p, s[0]), s[1..], a + [s[0]]);
      assert a + [s[0]] + s[1..] == a + s;
    }
  }

  lemma FirstByte(p: Parser, c: char, a: string)
    requires p.body == Cut(a) && Waits(p)
    ensures IsBlank(c) ==> BodyStep(p, c) == p.(body := Cut(a + [c]), chars := p.chars + 1)
    ensures !IsBlank(c) ==>
              BodyStep(p, c) == p.(body := Cut(a + (if c == '>' then "" else ">") + [c]),
                                   chars := p.chars + 1, needsPrefix := false, seenFirst := true)
  {
    CutAppend(a, c);
    CutAppend(a, '>');
    CutAppend(a + ">", c);
    assert a + "" == a;
  }

  lemma PrefixedUnfolds(s: string, a: string)
    requires s != ""
    ensures IsBlank(s[0]) ==> a + [s[0]] + Prefixed(s[1..]) == a + Prefixed(s)
    ensures !IsBlank(s[0]) ==>
              a + (if s[0] == '>' then "" else ">") + [s[0]] + s[1..] == a + Prefixed(s)
  {
    assert [s[0]] + s[1..] == s;
    if IsBlank(s[0]) {
      Regroup(a, [s[0]], Prefixed(s[1..]));
    } else {
      var x := if s[0] == '>' then "" else ">";
      Regroup(a + x, [s[0]], s[1..]);
      Regroup(a, x, s);
      assert Prefixed(s) == x + s;
    }
  }

  lemma BlankTail(s: string)
    requires s != ""
    ensures AllBlank(s) <==> IsBlank(s[0]) && AllBlank(s[1..])
  {
    assert AllBlank(s[1..]) && IsBlank(s[0]) ==> forall i :: 0 < i < |s| ==> s[i] == s[1..][i - 1];
    assert forall i :: 0 <= i < |s[1..]| ==> s[1..][i] == s[i + 1];
  }

  lemma {:induction false} BodyWithPrefix(p: Parser, s: string, a: string)
    requires p.body == Cut(a) && Waits(p)
    ensures var q := AfterBody(p, s);
            && q.body == Cut(a + Prefixed(s)) && q.chars == p.chars + |s|
            && q.mode == p.mode && q.current == p.current
            && q.needsPrefix == AllBlank(s) && q.seenFirst == !AllBlank(s)
    decreases s
  {
    if s == "" {
      assert a + Prefixed(s) == a;
    } else {
      var q := BodyStep(p, s[0]);
      FirstByte(p, s[0], a);
      PrefixedUnfolds(s, a);
      BlankTail(s);
      if IsBlank(s[0]) {
        BodyWithPrefix(q, s[1..], a + [s[0]]);
      } else {
        BodyWithoutPrefix(q, s[1..], a + (if s[0] == '>' then "" else ">") + [s[0]]);
      }
    }
  }

  // ---- what is left between two items ----

  /** A command that was refused leaves its tag open, and a blank python one that never got its
      prefix leaves that to the next body. */
  datatype Rest = Rest(open: string, owes: bool)

  const NOTHING_LEFT: Rest := Rest("", false)

  ghost predicate Between(p: Parser, r: Rest) {
    && p.mode == Searching && p.body == "" && p.current == r.open
    && p.needsPrefix == r.owes && (r.owes ==> !p.seenFirst)
  }

  /** Just behind an opening tag. */
  ghost predicate Enters(p: Parser, tag: string, prefix: bool) {
    && p.mode == InCommand && p.current == tag && p.body == "" && p.chars == 0
    && p.needsPrefix == prefix && (prefix ==> !p.seenFirst)
  }

  /** Just behind a body. */
  ghost predicate Filled(p: Parser, tag: string, body: string, prefix: bool) {
    && p.mode == InCommand && p.current == tag && p.chars == |body| && p.body == Payload(prefix, body)
    && p.needsPrefix == (prefix && AllBlank(body)) && (p.needsPrefix ==> !p.seenFirst)
  }

  /** A whole body fills the buffer with its payload: prefixed where a prefix is due, and cut. */
  lemma BodyFillsPayload(p: Parser, tag: string, body: string, prefix: bool)
    requires Enters(p, tag, prefix)
    ensures Filled(AfterBody(p, body), tag, body, prefix)
  {
    assert p.body == Cut("");
    if prefix {
      BodyWithPrefix(p, body, "");
      assert "" + Prefixed(body) == Prefixed(body);
    } else {
      BodyWithoutPrefix(p, body, "");
      assert "" + body == body;
    }
  }

  lemma FeedWholeBody(m: Machine, p: Parser, t: Stream, tag: string, prefix: bool)
    requires BodySteps(m) && Quiet(t) && Enters(p, tag, prefix) && '<' !in Chars(t) && |t| <= TIMEOUT
    ensures var f := Feed(m, p, t); f == Fed(f.parser, Let(t), []) && Filled(f.parser, tag, Chars(t), prefix)
  {
    BodyFillsPayload(p, tag, Chars(t), prefix);
    FeedBody(m, p, t);
  }

  // ---- tags ----

  function Opening(tag: string): string { "<" + tag + ">" }
  function Closing(tag: string): string { "</" + tag + ">" }

  /** The parser after a '<', and after the name that follows it. */
  function Bracket(p: Parser, name: string): Parser {
    p.(mode := Detecting, tag := name,
       chars := |name| + if p.mode == Searching then 0 else p.chars + 1)
  }

  /** '<' and a name, but no '>' yet. */
  lemma FeedUnfinished(m: Machine, p: Parser, t: Stream, name: string)
    requires ParsesTags(m) && Quiet(t) && Chars(t) == "<" + name && '>' !in name && |name| <= TAG_MAX
    requires p.mode == Searching || (p.mode == InCommand && p.chars + |name| + 1 <= TIMEOUT)
    ensures Feed(m, p, t) == Fed(Bracket(p, name), Let(t), [])
  {
    CharsSplit(t, "<", name);
    assert t[0].c == Chars(t)[0] == '<';
    assert m(p, t[0]) == Fed(Bracket(p, ""), LetOne(t[0]), []);
    FeedName(m, Bracket(p, ""), t[1..]);
    assert "" + name == name;
    FeedCons(m, p, t, Fed(Bracket(p, ""), LetOne(t[0]), []), Fed(Bracket(p, name), Let(t[1..]), []));
  }

  lemma CharsLast(t: Stream, s: string, c: char)
    requires Chars(t) == s + [c]
    ensures |t| == |s| + 1 && Chars(t[..|t| - 1]) == s && t[|t| - 1].c == c
  {
    CharsSplit(t, s, [c]);
    assert Chars(t)[|s|] == (s + [c])[|s|];
  }

  /** A name between two brackets. */
  lemma FeedBracketed(m: Machine, p: Parser, t: Stream, name: string)
    requires ParsesTags(m) && Quiet(t) && Chars(t) == "<" + name + ">" && '>' !in name && |name| <= TAG_MAX
    requires p.mode == Searching || (p.mode == InCommand && p.chars + |name| + 2 <= TIMEOUT)
    ensures |t| == |name| + 2 && t[|t| - 1].c == '>' && !t[|t| - 1].e.flashing
    ensures Feed(m, p, t) == Then(Fed(Bracket(p, name), Let(t[..|t| - 1]), []), m(Bracket(p, name), t[|t| - 1]))
  {
    CharsLast(t, "<" + name, '>');
    FeedUnfinished(m, p, t[..|t| - 1], name);
    FeedLast(m, p, t, Fed(Bracket(p, name), Let(t[..|t| - 1]), []));
  }

  /** A tag whose last byte is let through or withheld like the others. */
  lemma JoinLast(t: Stream, q: Parser, end: Fed)
    requires t != [] && end.forwarded == LetOne(t[|t| - 1])
    ensures Then(Fed(q, Let(t[..|t| - 1]), []), end) == Fed(end.parser, Let(t), end.commands)
  {
    LetLast(t);
    assert [] + end.commands == end.commands;
  }

  lemma FeedOpening(m: Machine, p: Parser, t: Stream, tag: string, r: Rest)
    requires ParsesTags(m) && Quiet(t) && Chars(t) == Opening(tag) && IsCommandTag(tag) && Between(p, r)
    ensures var f := Feed(m, p, t);
            f == Fed(f.parser, Let(t), []) && Enters(f.parser, tag, tag == PYTHON_TAG || r.owes)
  {
    TagsAreNames(tag);
    var q := Bracket(p, tag);
    FeedBracketed(m, p, t, tag);
    assert m(q, t[|t| - 1]) == Fed(Opened(q), LetOne(t[|t| - 1]), []);
    JoinLast(t, q, m(q, t[|t| - 1]));
  }

  lemma SlashName(tag: string)
    requires IsCommandTag(tag)
    ensures var name := "/" + tag;
            && '>' !in name && |name| == |tag| + 1 <= TAG_MAX && "<" + name + ">" == Closing(tag)
            && Closes(name) && name[1..] == tag && CString(name[1..]) == tag
  {
    TagsAreNames(tag);
    assert ("/" + tag)[1..] == tag;
  }

  /** A closing tag: whatever its '>' does. */
  lemma FeedClosing(m: Machine, p: Parser, t: Stream, tag: string)
    requires ParsesTags(m) && Quiet(t) && Chars(t) == Closing(tag) && IsCommandTag(tag)
    requires p.mode == Searching || (p.mode == InCommand && p.chars + |tag| + 3 <= TIMEOUT)
    ensures t != []
    ensures var q := Bracket(p, "/" + tag);
            Feed(m, p, t) ==
              if tag != p.current || (p.body != "" && !Served(t[|t| - 1].e)) then Fed(Dropped(q), Let(t), [])
              else Fed(Closed(q), Let(t), Dispatched(p))
  {
    var name, q := "/" + tag, Bracket(p, "/" + tag);
    SlashName(tag);
    FeedBracketed(m, p, t, name);
    var last := t[|t| - 1];
    assert m(q, last) == if tag != q.current || (q.body != "" && !Served(last.e)) then Fed(Dropped(q), LetOne(last), [])
                         else Fed(Closed(q), LetOne(last), Dispatched(q));
    JoinLast(t, q, m(q, last));
  }

  // ---- streams of texts, tags and commands ----

  /** What passes of a body and its closing tag when the time runs out. */
  function LatePasses(u: Stream, n: nat): string
    requires TIMEOUT <= |u| && n <= |u|
  {
    if n <= TIMEOUT then Let(u[..TIMEOUT]) + Chars(u[TIMEOUT..])
    else Let(u[..TIMEOUT]) + Chars(u[TIMEOUT..n]) + Let(u[n..])
  }

  datatype Item = Text(text: string) | Other(name: string) | Tagged(tag: string, body: string) {
    predicate Plain() {
      match this
      case Text(text) => '<' !in text
      case Other(name) => '>' !in name && |name| <= TAG_MAX && !IsCommandTag(CString(name))
      case Tagged(tag, body) => tag in ["j", "jumperless", "jumperlessCommand", "p"] && '<' !in body
    }

    function Print(): string {
      match this
      case Text(text) => text
      case Other(name) => "<" + name + ">"
      case Tagged(tag, body) => Opening(tag) + (body + Closing(tag))
    }

    /** The body and its closing tag come within the timeout. */
    predicate InTime() {
      Tagged? ==> |body| + |tag| + 3 <= 512
    }

    predicate PrefixDue(r: Rest)
      requires Tagged?
    {
      tag == "p" || r.owes
    }

    /** What the item makes the parser dispatch: its command, if its last byte comes in time and at a
        good moment. */
    function Commands(r: Rest, t: Stream): seq<Command>
      requires |t| == |Print()|
    {
      if Tagged? && body != "" && InTime() && Served(t[|t| - 1].e)
      then [Command(tag == "p", CString(Payload(PrefixDue(r), body)))] else []
    }

    /** What it leaves behind: something only if the command was refused, or if it was left already. */
    function Leaves(r: Rest, t: Stream): Rest
      requires |t| == |Print()|
    {
      match this
      case Text(_) => r
      case Other(name) => if Closes(name) && CString(name[1..]) == r.open then NOTHING_LEFT else r
      case Tagged(tag, body) =>
        if body == "" || !InTime() || Served(t[|t| - 1].e) then NOTHING_LEFT
        else Rest(tag, PrefixDue(r) && AllBlank(body))
    }

    /** What goes on down the stream: the texts, the '>' of a tag that is none of the parser's, of a
        command that timed out everything from the byte after the timeout on, but for a stray
        closing tag, and of all the rest what strip mode does not withhold. */
    function Passes(t: Stream): string
      requires |t| == |Print()|
    {
      match this
      case Text(_) => Chars(t)
      case Other(name) => if Closes(name) then Let(t) else Let(t[..|t| - 1]) + [t[|t| - 1].c]
      case Tagged(tag, body) =>
        if InTime() then Let(t)
        else var n := |Opening(tag)|; Let(t[..n]) + LatePasses(t[n..], |body|)
    }
  }

  /** An item has been dealt with. */
  ghost predicate Handles(f: Fed, item: Item, r: Rest, t: Stream)
    requires |t| == |item.Print()|
  {
    Between(f.parser, item.Leaves(r, t)) && f.forwarded == item.Passes(t) && f.commands == item.Commands(r, t)
  }

  lemma FeedOther(m: Machine, p: Parser, t: Stream, name: string, r: Rest)
    requires ParsesTags(m) && Between(p, r) && Quiet(t) && Other(name).Plain() && Chars(t) == Other(name).Print()
    ensures Handles(Feed(m, p, t), Other(name), r, t)
  {
    var q := Bracket(p, name);
    FeedBracketed(m, p, t, name);
    var last := t[|t| - 1];
    if Closes(name) {
      assert m(q, last) == if CString(name[1..]) != q.current then Fed(Dropped(q), LetOne(last), [])
                           else Fed(Closed(q), LetOne(last), []);
      JoinLast(t, q, m(q, last));
    } else {
      assert m(q, last) == Fed(q.(mode := Searching, chars := q.chars + 1), [last.c], []);
    }
  }

  /** The opening tag, and where the body and the closing tag are. */
  lemma TaggedParts(t: Stream, tag: string, body: string)
    requires Chars(t) == Tagged(tag, body).Print()
    ensures var n := |Opening(tag)|;
            && n <= |t| && Chars(t[..n]) == Opening(tag) && Chars(t[n..]) == body + Closing(tag)
            && |t[n..]| == |body| + |tag| + 3 && t[n..][|t[n..]| - 1] == t[|t| - 1]
            && Chars(t[n..][..|body|]) == body && Chars(t[n..][|body|..]) == Closing(tag)
  {
    CharsSplit(t, Opening(tag), body + Closing(tag));
    CharsSplit(t[|Opening(tag)|..], body, Closing(tag));
  }

  /** What a command that closed in time came to. */
  ghost predicate Concludes(f: Fed, tag: string, body: string, prefix: bool, e: Env, passed: string) {
    && f.forwarded == passed
    && f.commands == (if body == "" || !Served(e) then [] else [Command(tag == PYTHON_TAG, CString(Payload(prefix, body)))])
    && Between(f.parser, if body == "" || Served(e) then NOTHING_LEFT else Rest(tag, prefix && AllBlank(body)))
  }

  lemma FeedCloseFilled(m: Machine, p: Parser, t: Stream, tag: string, body: string, prefix: bool)
    requires ParsesTags(m) && Quiet(t) && IsCommandTag(tag) && Chars(t) == Closing(tag)
    requires Filled(p, tag, body, prefix) && |body| + |tag| + 3 <= TIMEOUT
    ensures t != [] && Concludes(Feed(m, p, t), tag, body, prefix, t[|t| - 1].e, Let(t))
  {
    FeedClosing(m, p, t, tag);
    PayloadEmpty(prefix, body);
  }

  lemma ThenConcludes(p: Parser, a: string, f: Fed, tag: string, body: string, prefix: bool, e: Env, passed: string)
    requires Concludes(f, tag, body, prefix, e, passed)
    ensures Concludes(Then(Fed(p, a, []), f), tag, body, prefix, e, a + passed)
  {
  }

  lemma LastOfTail(t: Stream, n: nat)
    requires n < |t|
    ensures t[n..] != [] && t[n..][|t[n..]| - 1] == t[|t| - 1]
  {
  }

  /** From behind the opening tag on, in time. */
  lemma FeedTimely(m: Machine, p: Parser, u: Stream, tag: string, body: string, prefix: bool)
    requires ParsesTags(m) && Quiet(u) && IsCommandTag(tag) && '<' !in body && |body| + |tag| + 3 <= TIMEOUT
    requires Enters(p, tag, prefix) && |u| == |body| + |tag| + 3
    requires Chars(u[..|body|]) == body && Chars(u[|body|..]) == Closing(tag)
    ensures Concludes(Feed(m, p, u), tag, body, prefix, u[|u| - 1].e, Let(u))
  {
    var n := |body|;
    FeedWholeBody(m, p, u[..n], tag, prefix);
    var q := Feed(m, p, u[..n]).parser;
    LastOfTail(u, n);
    FeedCloseFilled(m, q, u[n..], tag, body, prefix);
    FeedInTwo(m, p, u, n, Fed(q, Let(u[..n]), []), Feed(m, q, u[n..]));
    LetSplit(u, n);
    ThenConcludes(q, Let(u[..n]), Feed(m, q, u[n..]), tag, body, prefix, u[|u| - 1].e, Let(u[n..]));
  }

  lemma ConcludesHandles(f: Fed, item: Item, r: Rest, t: Stream)
    requires item.Tagged? && item.InTime() && |t| == |item.Print()|
    requires Concludes(f, item.tag, item.body, item.PrefixDue(r), t[|t| - 1].e, Let(t))
    ensures Handles(f, item, r, t)
  {
  }

  lemma FeedAllInTime(m: Machine, p: Parser, t: Stream, tag: string, body: string, r: Rest, n: nat)
    requires ParsesTags(m) && Between(p, r) && Quiet(t) && IsCommandTag(tag) && '<' !in body && |body| + |tag| + 3 <= TIMEOUT
    requires n < |t| && Chars(t[..n]) == Opening(tag) && |t[n..]| == |body| + |tag| + 3
    requires Chars(t[n..][..|body|]) == body && Chars(t[n..][|body|..]) == Closing(tag)
    ensures Concludes(Feed(m, p, t), tag, body, tag == PYTHON_TAG || r.owes, t[|t| - 1].e, Let(t))
  {
    var prefix := tag == PYTHON_TAG || r.owes;
    FeedOpening(m, p, t[..n], tag, r);
    var q := Feed(m, p, t[..n]).parser;
    LastOfTail(t, n);
    FeedTimely(m, q, t[n..], tag, body, prefix);
    FeedInTwo(m, p, t, n, Fed(q, Let(t[..n]), []), Feed(m, q, t[n..]));
    LetSplit(t, n);
    ThenConcludes(q, Let(t[..n]), Feed(m, q, t[n..]), tag, body, prefix, t[|t| - 1].e, Let(t[n..]));
  }

  /** A command that closes in time is dispatched with its payload if it is served, and otherwise
      leaves its tag open. */
  lemma FeedInTime(m: Machine, p: Parser, t: Stream, item: Item, r: Rest)
    requires ParsesTags(m) && Between(p, r) && Quiet(t) && item.Tagged? && item.Plain() && item.InTime()
    requires Chars(t) == item.Print()
    ensures Handles(Feed(m, p, t), item, r, t)
  {
    TaggedParts(t, item.tag, item.body);
    FeedAllInTime(m, p, t, item.tag, item.body, r, |Opening(item.tag)|);
    ConcludesHandles(Feed(m, p, t), item, r, t);
  }

  /** Once the counter stands at the limit, the next byte resets the parser, and what follows is
      text up to the next '<'. */
  lemma FeedTimeout(m: Machine, q: Parser, t: Stream)
    requires ParsesTags(m) && q.mode != Searching && q.chars == TIMEOUT
    requires Quiet(t) && t != [] && '<' !in Chars(t[1..])
    ensures Feed(m, q, t) == Fed(RESET, Chars(t), [])
  {
    FeedText(m, RESET, t[1..]);
    FeedCons(m, q, t, Fed(RESET, [t[0].c], []), Fed(RESET, Chars(t[1..]), []));
    CharsTail(t);
  }

  lemma NoneInPart(t: Stream, c: char, i: nat, j: nat)
    requires i <= j <= |t| && c !in Chars(t)
    ensures c !in Chars(t[i..j])
  {
    forall k | 0 <= k < j - i ensures t[i..j][k].c != c { assert Chars(t)[i + k] != c; }
  }

  /** A body that outlasts the timeout: the rest of it passes, and its closing tag is a stray one. */
  lemma FeedLongBody(m: Machine, p: Parser, u: Stream, tag: string, n: nat, prefix: bool)
    requires ParsesTags(m) && Quiet(u) && IsCommandTag(tag) && Enters(p, tag, prefix)
    requires TIMEOUT < n <= |u| && '<' !in Chars(u[..n]) && Chars(u[n..]) == Closing(tag)
    ensures var f := Feed(m, p, u);
            && Between(f.parser, NOTHING_LEFT) && f.commands == []
            && f.forwarded == Let(u[..TIMEOUT]) + Chars(u[TIMEOUT..n]) + Let(u[n..])
  {
    var v := u[..n];
    NoneInPart(v, '<', 0, TIMEOUT);
    NoneInPart(v, '<', TIMEOUT + 1, n);
    assert v[..TIMEOUT] == u[..TIMEOUT] && v[TIMEOUT..] == u[TIMEOUT..n] && v[TIMEOUT..][1..] == v[TIMEOUT + 1..n];
    FeedWholeBody(m, p, v[..TIMEOUT], tag, prefix);
    var q := Feed(m, p, v[..TIMEOUT]).parser;
    FeedTimeout(m, q, v[TIMEOUT..]);
    FeedInTwo(m, p, v, TIMEOUT, Fed(q, Let(u[..TIMEOUT]), []), Fed(RESET, Chars(u[TIMEOUT..n]), []));
    TagsAreNames(tag);
    FeedClosing(m, RESET, u[n..], tag);
    FeedInTwo(m, p, u, n, Feed(m, p, v), Feed(m, RESET, u[n..]));
  }

  lemma PartsOfClosing(tag: string, k: nat)
    requires IsName(tag) && k < |Closing(tag)|
    ensures '<' !in Closing(tag)[k..][1..]
    ensures k > 0 ==> var name := ("/" + tag)[..k - 1];
                      Closing(tag)[..k] == "<" + name && '>' !in name && |name| <= TAG_MAX
  {
    var name := "/" + tag;
    assert '>' !in name && '<' !in name;
    forall c | c in Closing(tag)[k..][1..] ensures c != '<' {
      var i :| 0 <= i < |Closing(tag)[k..][1..]| && Closing(tag)[k..][1..][i] == c;
      assert c == (name + ">")[k + i];
    }
    if k > 0 {
      assert Closing(tag)[..k] == "<" + name[..k - 1];
    }
  }

  lemma CharsOfPart(t: Stream, i: nat)
    requires i <= |t|
    ensures Chars(t[..i]) == Chars(t)[..i] && Chars(t[i..]) == Chars(t)[i..]
  {
  }

  /** A closing tag in which the time runs out: from there on it passes. */
  lemma FeedLateClosing(m: Machine, p: Parser, t: Stream, tag: string, k: nat)
    requires ParsesTags(m) && Quiet(t) && IsCommandTag(tag) && Chars(t) == Closing(tag)
    requires p.mode == InCommand && k < |t| && p.chars + k == TIMEOUT
    ensures Feed(m, p, t) == Fed(RESET, Let(t[..k]) + Chars(t[k..]), [])
  {
    TagsAreNames(tag);
    PartsOfClosing(tag, k);
    CharsOfPart(t, k);
    CharsOfPart(t[k..], 1);
    var q := p;
    if k > 0 {
      var name := ("/" + tag)[..k - 1];
      FeedUnfinished(m, p, t[..k], name);
      q := Bracket(p, name);
    }
    FeedTimeout(m, q, t[k..]);
    FeedInTwo(m, p, t, k, Fed(q, Let(t[..k]), []), Fed(RESET, Chars(t[k..]), []));
  }

  lemma FeedShortBody(m: Machine, p: Parser, u: Stream, tag: string, n: nat, prefix: bool)
    requires ParsesTags(m) && Quiet(u) && IsCommandTag(tag) && Enters(p, tag, prefix)
    requires n <= TIMEOUT < |u| && n <= |u| && '<' !in Chars(u[..n]) && Chars(u[n..]) == Closing(tag)
    ensures Feed(m, p, u) == Fed(RESET, Let(u[..TIMEOUT]) + Chars(u[TIMEOUT..]), [])
  {
    var k := TIMEOUT - n;
    FeedWholeBody(m, p, u[..n], tag, prefix);
    var q := Feed(m, p, u[..n]).parser;
    FeedLateClosing(m, q, u[n..], tag, k);
    assert u[n..][..k] == u[n..TIMEOUT] && u[n..][k..] == u[TIMEOUT..];
    FeedInTwo(m, p, u, n, Fed(q, Let(u[..n]), []), Fed(RESET, Let(u[n..TIMEOUT]) + Chars(u[TIMEOUT..]), []));
    assert u[..TIMEOUT][..n] == u[..n] && u[..TIMEOUT][n..] == u[n..TIMEOUT];
    LetSplit(u[..TIMEOUT], n);
    Regroup(Let(u[..n]), Let(u[n..TIMEOUT]), Chars(u[TIMEOUT..]));
  }

  lemma FeedLate(m: Machine, p: Parser, u: Stream, tag: string, n: nat, prefix: bool)
    requires ParsesTags(m) && Quiet(u) && IsCommandTag(tag) && Enters(p, tag, prefix)
    requires n <= |u| && TIMEOUT < |u| && '<' !in Chars(u[..n]) && Chars(u[n..]) == Closing(tag)
    ensures var f := Feed(m, p, u);
            Between(f.parser, NOTHING_LEFT) && f.commands == [] && f.forwarded == LatePasses(u, n)
  {
    if n > TIMEOUT {
      FeedLongBody(m, p, u, tag, n, prefix);
    } else {
      FeedShortBody(m, p, u, tag, n, prefix);
    }
  }

  /** A command that does not close in time is not dispatched. */
  lemma FeedTooLate(m: Machine, p: Parser, t: Stream, item: Item, r: Rest)
    requires ParsesTags(m) && Between(p, r) && Quiet(t) && item.Tagged? && item.Plain() && !item.InTime()
    requires Chars(t) == item.Print()
    ensures Handles(Feed(m, p, t), item, r, t)
  {
    var n, k := |Opening(item.tag)|, |item.body|;
    TaggedParts(t, item.tag, item.body);
    FeedOpening(m, p, t[..n], item.tag, r);
    var q := Feed(m, p, t[..n]).parser;
    FeedLate(m, q, t[n..], item.tag, k, item.PrefixDue(r));
    FeedInTwo(m, p, t, n, Fed(q, Let(t[..n]), []), Feed(m, q, t[n..]));
  }

  lemma FeedItem(m: Machine, p: Parser, t: Stream, item: Item, r: Rest)
    requires ParsesTags(m) && Between(p, r) && Quiet(t) && item.Plain() && Chars(t) == item.Print()
    ensures Handles(Feed(m, p, t), item, r, t)
  {
    match item
    case Text(_) => FeedText(m, p, t);
    case Other(name) => FeedOther(m, p, t, name, r);
    case Tagged(_, _) => if item.InTime() { FeedInTime(m, p, t, item, r); } else { FeedTooLate(m, p, t, item, r); }
  }

  function Print(items: seq<Item>): string {
    if items == [] then "" else items[0].Print() + Print(items[1..])
  }

  /** What a list of items makes of its stream, one after the other. */
  function Passes(items: seq<Item>, t: Stream): string
    requires |t| == |Print(items)|
  {
    if items == [] then ""
    else var n := |items[0].Print()|; items[0].Passes(t[..n]) + Passes(items[1..], t[n..])
  }

  function Commands(items: seq<Item>, r: Rest, t: Stream): seq<Command>
    requires |t| == |Print(items)|
    decreases items
  {
    if items == [] then []
    else
      var n := |items[0].Print()|;
      items[0].Commands(r, t[..n]) + Commands(items[1..], items[0].Leaves(r, t[..n]), t[n..])
  }

  function Leaves(items: seq<Item>, r: Rest, t: Stream): Rest
    requires |t| == |Print(items)|
    decreases items
  {
    if items == [] then r
    else var n := |items[0].Print()|; Leaves(items[1..], items[0].Leaves(r, t[..n]), t[n..])
  }

  predicate AllPlain(items: seq<Item>) { forall i :: 0 <= i < |items| ==> items[i].Plain() }

  lemma {:induction false} FeedItems(m: Machine, p: Parser, t: Stream, items: seq<Item>, r: Rest)
    requires ParsesTags(m) && Between(p, r) && Quiet(t) && AllPlain(items) && Chars(t) == Print(items)
    ensures |t| == |Print(items)|
    ensures var f := Feed(m, p, t);
            && Between(f.parser, Leaves(items, r, t))
            && f.forwarded == Passes(items, t) && f.commands == Commands(items, r, t)
    decreases items
  {
    assert |t| == |Chars(t)|;
    if items != [] {
      var n := |items[0].Print()|;
      CharsSplit(t, items[0].Print(), Print(items[1..]));
      FeedItem(m, p, t[..n], items[0], r);
      var f := Feed(m, p, t[..n]);
      FeedItems(m, f.parser, t[n..], items[1..], items[0].Leaves(r, t[..n]));
      FeedInTwo(m, p, t, n, f, Feed(m, f.parser, t[n..]));
    }
  }

  /** The round trip, for every list of texts, tags and commands, whatever the surroundings are at
      each byte outside flashing: the parser dispatches exactly the commands that close in time and
      whose closing '>' is served, in order, each with the prefix that is due and cut to the buffer;
      it lets through what it should; and it keeps exactly what a refused command leaves behind. */
  lemma RoundTrip(items: seq<Item>, t: Stream)
    requires AllPlain(items) && Quiet(t) && Chars(t) == Print(items)
    ensures |t| == |Print(items)|
    ensures var f := Feed(Tags(), RESET, t);
            && f.commands == Commands(items, NOTHING_LEFT, t)
            && f.forwarded == Passes(items, t)
            && Between(f.parser, Leaves(items, NOTHING_LEFT, t))
  {
    TagsParse();
    FeedItems(Tags(), RESET, t, items, NOTHING_LEFT);
  }

  /** The bytes that come while nothing is flashed. */
  function Heard(t: Stream): (h: Stream)
    ensures Quiet(h)
  {
    if t == [] then [] else (if t[0].e.flashing then [] else [t[0]]) + Heard(t[1..])
  }

  lemma FlashingIsDeafOnce(p: Parser, b: Byte)
    requires b.e.flashing
    ensures FeedOne(p, b) == Fed(p, [b.c], [])
  {
  }

  /** While the Arduino is flashed every byte goes on, and the parser hears none of them. */
  lemma {:induction false} FlashingIsDeaf(p: Parser, t: Stream)
    ensures var f, h := Feed(Tags(), p, t), Feed(Tags(), p, Heard(t));
            f.parser == h.parser && f.commands == h.commands
    decreases t
  {
    if t != [] {
      var one := FeedOne(p, t[0]);
      FlashingIsDeaf(one.parser, t[1..]);
      if t[0].e.flashing {
        FlashingIsDeafOnce(p, t[0]);
        assert Heard(t) == Heard(t[1..]);
      } else {
        assert Heard(t)[0] == t[0] && Heard(t)[1..] == Heard(t[1..]);
      }
    }
  }

  /** The round trip with flashing in between, at any byte: what is heard outside it counts. */
  lemma RoundTripAroundFlashing(items: seq<Item>, t: Stream)
    requires AllPlain(items) && Chars(Heard(t)) == Print(items)
    ensures |Heard(t)| == |Print(items)|
    ensures var f := Feed(Tags(), RESET, t);
            && f.commands == Commands(items, NOTHING_LEFT, Heard(t))
            && Between(f.parser, Leaves(items, NOTHING_LEFT, Heard(t)))
  {
    FlashingIsDeaf(RESET, t);
    RoundTrip(items, Heard(t));
  }

  /** The commands of a list when none is refused. */
  function Complete(items: seq<Item>): seq<Command> {
    if items == [] then []
    else
      (match items[0]
       case Tagged(tag, body) =>
         if body == "" || !items[0].InTime() then []
         else [Command(tag == PYTHON_TAG, CString(Payload(tag == PYTHON_TAG, body)))]
       case _ => []) + Complete(items[1..])
  }

  /** With every byte served, every command in time is dispatched and nothing is left behind. */
  lemma {:induction false} ServedIsComplete(items: seq<Item>, t: Stream)
    requires |t| == |Print(items)| && forall i :: 0 <= i < |t| ==> Served(t[i].e)
    ensures Commands(items, NOTHING_LEFT, t) == Complete(items)
    ensures Leaves(items, NOTHING_LEFT, t) == NOTHING_LEFT
    decreases items
  {
    if items != [] {
      var n := |items[0].Print()|;
      ServedLeavesNothing(items[0], t[..n]);
      ServedIsComplete(items[1..], t[n..]);
    }
  }

  lemma ServedLeavesNothing(item: Item, t: Stream)
    requires |t| == |item.Print()| && forall i :: 0 <= i < |t| ==> Served(t[i].e)
    ensures item.Leaves(NOTHING_LEFT, t) == NOTHING_LEFT
  {
    if item.Tagged? { assert Served(t[|t| - 1].e); }
  }

  /** Nothing is lost on the way without strip mode: every byte goes on. */
  lemma {:induction false} PassesEverything(items: seq<Item>, t: Stream)
    requires |t| == |Print(items)| && forall i :: 0 <= i < |t| ==> !t[i].e.strip
    ensures Passes(items, t) == Chars(t)
    decreases items
  {
    if items != [] {
      var n := |items[0].Print()|;
      ItemPasses(items[0], t[..n]);
      PassesEverything(items[1..], t[n..]);
      CharsJoin(t, n);
    }
  }

  lemma {:induction false} LetsEverything(t: Stream)
    requires forall i :: 0 <= i < |t| ==> !t[i].e.strip
    ensures Let(t) == Chars(t)
  {
    if t != [] {
      LetsEverything(t[1..]);
      CharsTail(t);
    }
  }

  lemma CharsJoin(t: Stream, k: nat)
    requires k <= |t|
    ensures Chars(t) == Chars(t[..k]) + Chars(t[k..])
  {
  }

  lemma LatePassesAll(u: Stream, n: nat)
    requires TIMEOUT <= |u| && n <= |u| && forall i :: 0 <= i < |u| ==> !u[i].e.strip
    ensures LatePasses(u, n) == Chars(u)
  {
    LetsEverything(u[..TIMEOUT]);
    CharsJoin(u, TIMEOUT);
    if n > TIMEOUT {
      LetsEverything(u[n..]);
      CharsJoin(u, n);
      CharsJoin(u[..n], TIMEOUT);
      assert u[..n][..TIMEOUT] == u[..TIMEOUT] && u[..n][TIMEOUT..] == u[TIMEOUT..n];
    }
  }

  lemma OtherPasses(t: Stream)
    requires t != [] && forall i :: 0 <= i < |t| ==> !t[i].e.strip
    ensures Let(t) == Chars(t) && Let(t[..|t| - 1]) + [t[|t| - 1].c] == Chars(t)
  {
    LetsEverything(t);
    LetsEverything(t[..|t| - 1]);
    CharsButLast(t);
  }

  lemma CharsButLast(t: Stream)
    requires t != []
    ensures Chars(t[..|t| - 1]) + [t[|t| - 1].c] == Chars(t)
  {
  }

  lemma ItemPasses(item: Item, t: Stream)
    requires |t| == |item.Print()| && forall i :: 0 <= i < |t| ==> !t[i].e.strip
    ensures item.Passes(t) == Chars(t)
  {
    match item
    case Text(_) =>
    case Other(name) => OtherPasses(t);
    case Tagged(tag, body) =>
      LetsEverything(t);
      if !item.InTime() {
        var n := |Opening(tag)|;
        LatePassesAll(t[n..], |body|);
        LetsEverything(t[..n]);
        CharsJoin(t, n);
      }
  }
}
