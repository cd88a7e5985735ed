/**
 The byte-at-a-time command tag parser: it finds `<tag>body</tag>` in a stream that is
 otherwise passed through, collects the body, and dispatches it when the closing tag matches.

 `Parser` is the parser with its buffers seen as strings; `TagParserState` is the firmware's
 struct with its fixed buffers and indices, proved to compute the same.
 */
module TagParser {
  import opened Wrappers

  const TAG_MAX: nat := 31           // sizeof(tag_buffer) - 1
  const BODY_MAX: nat := 255         // sizeof(command_buffer) - 1
  const TIMEOUT: nat := 512

  const PYTHON_TAG: string := "p"
  const COMMAND_TAGS: seq<string> := ["jumperlessCommand", "j", "jumperless", PYTHON_TAG]

  datatype Mode = Searching | Detecting | InCommand

  datatype Parser = Parser(
    mode: Mode,
    tag: string,                     // tag_buffer up to its index
    current: string,                 // the open tag, "" when there is none
    needsPrefix: bool,
    seenFirst: bool,
    body: string,                    // command_buffer up to its index
    chars: nat                       // bytes since the tag or the body began
  )

  const RESET: Parser := Parser(Searching, "", "", false, false, "", 0)

  /** What the parser asks its surroundings about while it handles one byte. */
  datatype Env = Env(
    strip: bool,                     // tag_parsing mode 2
    flashing: bool,
    startupComplete: bool,
    coolingDown: bool,               // within the post-flash cooldown and core 2 busy
    filesystemFree: bool,
    slotFree: bool                   // the command buffer accepts a pending command
  )

  datatype Command = Command(python: bool, text: string)

  datatype Output = Output(parser: Parser, forward: bool, dispatched: Option<Command>)

  predicate IsCommandTag(tag: string) {
    tag in COMMAND_TAGS
  }

  predicate IsBlank(c: char) { c == ' ' || c == '\t' || c == '\n' || c == '\r' }

  /** A buffer read as a C string ends at its first NUL. */
  function CString(s: string): (r: string)
    ensures |r| <= |s|
  {
    if s == [] || s[0] == '\0' then "" else [s[0]] + CString(s[1..])
  }

  predicate GuardsOpen(e: Env) {
    e.startupComplete && !e.flashing && !e.coolingDown && e.filesystemFree && e.slotFree
  }

  /** A closing tag: a body is dispatched when every guard is open, and dropped otherwise. */
  function EndOfCommand(p: Parser, name: string, e: Env): Output {
    if name == p.current then
      if p.body != "" && !GuardsOpen(e) then
        Output(p.(mode := Searching, body := ""), !e.strip, None)
      else
        Output(p.(mode := Searching, current := "", body := "", needsPrefix := false, seenFirst := false),
               !e.strip,
               if p.body == "" then None else Some(Command(p.current == PYTHON_TAG, CString(p.body))))
    else
      Output(p.(mode := Searching, body := ""), !e.strip, None)
  }

  /** A '>' that ends a tag name. */
  function EndOfTag(p: Parser, e: Env): Output {
    if p.tag != "" && p.tag[0] == '/' then EndOfCommand(p, CString(p.tag[1..]), e)
    else if IsCommandTag(CString(p.tag)) then
      var python := CString(p.tag) == PYTHON_TAG;
      Output(p.(mode := InCommand, current := CString(p.tag), body := "", chars := 0,
                needsPrefix := python || p.needsPrefix, seenFirst := !python && p.seenFirst),
             !e.strip, None)
    else
      Output(p.(mode := Searching), true, None)
  }

  function TagByte(p: Parser, c: char, e: Env): Output {
    if c == '>' then EndOfTag(p, e)
    else if |p.tag| < TAG_MAX then Output(p.(tag := p.tag + [c]), !e.strip, None)
    else Output(p.(mode := Searching), true, None)
  }

  function Append(body: string, c: char): string {
    if |body| < BODY_MAX then body + [c] else body
  }

  /** A byte of a command body; the first non-blank one of a python body gets its '>' prefix. */
  function BodyByte(p: Parser, c: char): Parser {
    var first := p.needsPrefix && !p.seenFirst && !IsBlank(c);
    var body := if first && c != '>' then Append(p.body, '>') else p.body;
    p.(body := Append(body, c),
       needsPrefix := p.needsPrefix && !first,
       seenFirst := p.seenFirst || first)
  }

  /** What a byte does once flashing and the timeout are out of the way. */
  function Handle(p: Parser, c: char, e: Env): Output {
    match p.mode
    case Searching =>
      if c == '<' then Output(p.(mode := Detecting, tag := "", chars := 0), !e.strip, None)
      else Output(p, true, None)
    case Detecting => TagByte(p, c, e)
    case InCommand =>
      if c == '<' then Output(p.(mode := Detecting, tag := ""), !e.strip, None)
      else Output(BodyByte(p, c), !e.strip, None)
  }

  predicate TimesOut(p: Parser) { p.mode != Searching && p.chars + 1 > TIMEOUT }

  /** The parser once it has counted a byte: reset if that was one too many. */
  function Counted(p: Parser): Parser {
    if TimesOut(p) then RESET
    else if p.mode == Searching then p
    else p.(chars := p.chars + 1)
  }

  function Step(p: Parser, c: char, e: Env): Output {
    if e.flashing then Output(p, true, None)
    else if TimesOut(p) then Output(Counted(p), true, None)
    else Handle(Counted(p), c, e)
  }

  // ---- bounds that hold for every stream ----

  ghost predicate Bounded(p: Parser) {
    && |p.tag| <= TAG_MAX && |p.body| <= BODY_MAX && p.chars <= TIMEOUT
    && (p.current == "" || IsCommandTag(p.current))
    && (p.mode == InCommand ==> p.current != "")
  }

  lemma TagByteKeepsBounds(p: Parser, c: char, e: Env)
    requires Bounded(p)
    ensures Bounded(TagByte(p, c, e).parser)
    ensures TagByte(p, c, e).dispatched.Some? ==>
              && GuardsOpen(e) && c == '>' && p.body != ""
              && TagByte(p, c, e).dispatched.value.text == CString(p.body)
    ensures e.strip || TagByte(p, c, e).forward
  {
    if c == '>' {
      if p.tag != "" && p.tag[0] == '/' { EndOfCommandKeepsBounds(p, CString(p.tag[1..]), e); }
      else { OpeningKeepsBounds(p, e); }
    }
  }

  lemma EndOfCommandKeepsBounds(p: Parser, name: string, e: Env)
    requires Bounded(p)
    ensures var o := EndOfCommand(p, name, e);
            && Bounded(o.parser) && o.forward == !e.strip
            && (o.dispatched.Some? ==> GuardsOpen(e) && p.body != "" && o.dispatched.value.text == CString(p.body))
  {
  }

  lemma OpeningKeepsBounds(p: Parser, e: Env)
    requires Bounded(p) && (p.tag == "" || p.tag[0] != '/')
    ensures var o := EndOfTag(p, e); Bounded(o.parser) && o.dispatched.None? && (e.strip || o.forward)
  {
    if IsCommandTag(CString(p.tag)) { NoTagIsEmpty(CString(p.tag)); }
  }

  lemma NoTagIsEmpty(tag: string)
    requires IsCommandTag(tag)
    ensures tag != ""
  {
  }

  ghost predicate DispatchIsSound(p: Parser, c: char, e: Env, o: Output) {
    o.dispatched.Some? ==>
      && e.startupComplete && !e.flashing && !e.coolingDown && e.filesystemFree && e.slotFree
      && c == '>' && p.mode == Detecting && p.body != ""
      && o.dispatched.value.text == CString(p.body) && |o.dispatched.value.text| <= BODY_MAX
  }

  lemma HandleKeepsBounds(p: Parser, c: char, e: Env)
    requires Bounded(p)
    ensures Bounded(Handle(p, c, e).parser)
    ensures DispatchIsSound(p, c, e, Handle(p, c, e))
    ensures e.strip || Handle(p, c, e).forward
  {
    if p.mode == Detecting { TagByteKeepsBounds(p, c, e); }
  }

  /** Every byte, whatever the environment answers, keeps the indices inside their buffers and
      the open tag supported; a dispatch needs every guard open and a nonempty body buffer, and
      hands over at most 255 bytes; and only strip mode ever withholds a byte. */
  lemma StepKeepsBounds(p: Parser, c: char, e: Env)
    requires Bounded(p)
    ensures Bounded(Step(p, c, e).parser)
    ensures DispatchIsSound(p, c, e, Step(p, c, e))
    ensures e.strip || Step(p, c, e).forward
  {
    var q := Counted(p);
    if !TimesOut(p) { HandleKeepsBounds(q, c, e); }
  }

  /** A byte dispatches exactly when it ends, in time, the closing tag of the open command with
      something in its body, and all is ready for the command. */
  lemma DispatchesIff(p: Parser, c: char, e: Env)
    ensures Step(p, c, e).dispatched.Some? <==>
              && c == '>' && p.mode == Detecting && p.chars < TIMEOUT && p.body != ""
              && p.tag != "" && p.tag[0] == '/' && CString(p.tag[1..]) == p.current
              && e.startupComplete && !e.flashing && !e.coolingDown && e.filesystemFree && e.slotFree
  {
    if !e.flashing && !TimesOut(p) && p.mode == Detecting {
      assert Counted(p) == p.(chars := p.chars + 1);
    }
  }

  /** The dispatched text is empty exactly when the body buffer begins with a NUL. */
  lemma DispatchIsNonempty(p: Parser, c: char, e: Env)
    requires Bounded(p) && Step(p, c, e).dispatched.Some?
    ensures Step(p, c, e).dispatched.value.text == "" <==> p.body[0] == '\0'
  {
    StepKeepsBounds(p, c, e);
  }

  function After(p: Parser, s: string, es: seq<Env>): Parser
    requires |es| == |s|
    decreases s
  {
    if s == "" then p else After(Step(p, s[0], es[0]).parser, s[1..], es[1..])
  }

  lemma {:induction false} StreamKeepsBounds(p: Parser, s: string, es: seq<Env>)
    requires Bounded(p) && |es| == |s|
    ensures Bounded(After(p, s, es))
    decreases s
  {
    if s != "" {
      StepKeepsBounds(p, s[0], es[0]);
      StreamKeepsBounds(Step(p, s[0], es[0]).parser, s[1..], es[1..]);
    }
  }

  /** Byte number i of the stream completes an opening tag, or leaves the parser searching. */
  ghost predicate Settles(p: Parser, s: string, es: seq<Env>, i: nat)
    requires |es| == |s| && i < |s|
  {
    var before, after := After(p, s[..i], es[..i]), After(p, s[..i + 1], es[..i + 1]);
    after.mode == Searching || (before.mode == Detecting && after.mode == InCommand)
  }

  lemma {:induction false} AfterOneMore(p: Parser, s: string, es: seq<Env>, i: nat)
    requires |es| == |s| && i < |s|
    ensures After(p, s[..i + 1], es[..i + 1]) == Step(After(p, s[..i], es[..i]), s[i], es[i]).parser
    decreases i
  {
    if i == 0 {
      assert s[..1] == [s[0]] && es[..1] == [es[0]];
    } else {
      AfterOneMore(Step(p, s[0], es[0]).parser, s[1..], es[1..], i - 1);
      assert s[..i + 1][1..] == s[1..][..i] && es[..i + 1][1..] == es[1..][..i];
      assert s[..i][1..] == s[1..][..i - 1] && es[..i][1..] == es[1..][..i - 1];
    }
  }

  lemma StepCounts(p: Parser, c: char, e: Env)
    requires p.mode != Searching && !e.flashing
    ensures var q := Step(p, c, e).parser;
            q.mode == Searching || (p.mode == Detecting && q.mode == InCommand) || q.chars == p.chars + 1
  {
  }

  /** While nothing settles, the timeout counter counts every byte. */
  lemma {:induction false} UnsettledCounts(p: Parser, s: string, es: seq<Env>, n: nat)
    requires |es| == |s| && n <= |s| && forall i :: 0 <= i < |s| ==> !es[i].flashing
    requires p.mode != Searching
    requires forall i :: 0 <= i < n ==> !Settles(p, s, es, i)
    ensures After(p, s[..n], es[..n]).mode != Searching
    ensures After(p, s[..n], es[..n]).chars == p.chars + n
  {
    if n > 0 {
      UnsettledCounts(p, s, es, n - 1);
      AfterOneMore(p, s, es, n - 1);
      StepCounts(After(p, s[..n - 1], es[..n - 1]), s[n - 1], es[n - 1]);
      assert !Settles(p, s, es, n - 1);
    }
  }

  /** The parser cannot get stuck: among any 513 consecutive bytes outside flashing one completes
      an opening tag or leaves it searching. */
  lemma NeverStuck(p: Parser, s: string, es: seq<Env>)
    requires Bounded(p) && |es| == |s| == TIMEOUT + 1
    requires forall i :: 0 <= i < |s| ==> !es[i].flashing
    ensures p.mode == Searching || exists i :: 0 <= i < |s| && Settles(p, s, es, i)
  {
    if p.mode != Searching && forall i :: 0 <= i < |s| ==> !Settles(p, s, es, i) {
      UnsettledCounts(p, s, es, |s|);
      assert s[..|s|] == s && es[..|s|] == es;
      StreamKeepsBounds(p, s, es);
      assert false;
    }
  }

  // ---- the firmware's struct ----

  class TagParserState {
    var mode: Mode
    const tagBuffer: array<char>
    var tagBufferIdx: nat
    var currentTag: string
    var needsPythonPrefix: bool
    var seenFirstChar: bool
    const commandBuffer: array<char>
    var commandBufferIdx: nat
    var charsInState: nat

    ghost predicate Valid()
      reads this
    {
      && tagBuffer.Length == TAG_MAX + 1 && commandBuffer.Length == BODY_MAX + 1
      && tagBuffer != commandBuffer
      && tagBufferIdx <= TAG_MAX && commandBufferIdx <= BODY_MAX
    }

    ghost function View(): Parser
      requires Valid()
      reads this, tagBuffer, commandBuffer
    {
      Parser(mode, tagBuffer[..tagBufferIdx], currentTag, needsPythonPrefix, seenFirstChar,
             commandBuffer[..commandBufferIdx], charsInState)
    }

    constructor ()
      ensures Valid() && View() == RESET && fresh(tagBuffer) && fresh(commandBuffer)
    {
      tagBuffer := new char[TAG_MAX + 1](_ => '\0');
      commandBuffer := new char[BODY_MAX + 1](_ => '\0');
      mode, tagBufferIdx, currentTag := Searching, 0, "";
      needsPythonPrefix, seenFirstChar := false, false;
      commandBufferIdx, charsInState := 0, 0;
    }

    /** clearTagParserState, for one of the two parsers. */
    method Clear()
      requires Valid()
      modifies this
      ensures Valid() && View() == RESET
    {
      mode := Searching;
      tagBufferIdx, currentTag, commandBufferIdx := 0, "", 0;
      needsPythonPrefix, seenFirstChar, charsInState := false, false, 0;
    }

    method PutBody(c: char)
      requires Valid()
      modifies this`commandBufferIdx, commandBuffer
      ensures Valid() && View() == old(View()).(body := Append(old(View()).body, c))
    {
      if commandBufferIdx < commandBuffer.Length - 1 {
        commandBuffer[commandBufferIdx] := c;
        commandBufferIdx := commandBufferIdx + 1;
      }
    }

    method InBody(c: char)
      requires Valid()
      modifies this, commandBuffer
      ensures Valid() && View() == BodyByte(old(View()), c)
    {
      if needsPythonPrefix && !seenFirstChar && !IsBlank(c) {
        seenFirstChar := true;
        if c != '>' { PutBody('>'); }
        needsPythonPrefix := false;
      }
      PutBody(c);
    }

    method CloseCommand(name: string, e: Env) returns (dispatched: Option<Command>)
      requires Valid()
      modifies this`mode, this`currentTag, this`commandBufferIdx, this`needsPythonPrefix, this`seenFirstChar, commandBuffer
      ensures Valid() && Output(View(), !e.strip, dispatched) == EndOfCommand(old(View()), name, e)
    {
      if name != currentTag {
        mode, commandBufferIdx := Searching, 0;
        return None;
      }
      var body := commandBuffer[..commandBufferIdx];
      commandBuffer[commandBufferIdx] := '\0';
      dispatched := None;
      if commandBufferIdx > 0 {
        if !e.startupComplete || e.flashing || e.coolingDown || !e.filesystemFree || !e.slotFree {
          mode, commandBufferIdx := Searching, 0;
          return;
        }
        dispatched := Some(Command(currentTag == PYTHON_TAG, CString(body)));
      }
      mode, currentTag, commandBufferIdx := Searching, "", 0;
      needsPythonPrefix, seenFirstChar := false, false;
    }

    method CloseTag(e: Env) returns (forward: bool, dispatched: Option<Command>)
      requires Valid()
      modifies this, commandBuffer
      ensures Valid() && Output(View(), forward, dispatched) == EndOfTag(old(View()), e)
    {
      var name := tagBuffer[..tagBufferIdx];
      forward, dispatched := !e.strip, None;
      if name != "" && name[0] == '/' {
        dispatched := CloseCommand(CString(name[1..]), e);
      } else if IsCommandTag(CString(name)) {
        currentTag := CString(name);
        mode, commandBufferIdx, charsInState := InCommand, 0, 0;
        if currentTag == PYTHON_TAG {
          needsPythonPrefix, seenFirstChar := true, false;
        }
      } else {
        mode := Searching;
        forward := true;
      }
    }

    method InTag(c: char, e: Env) returns (forward: bool, dispatched: Option<Command>)
      requires Valid()
      modifies this, tagBuffer, commandBuffer
      ensures Valid() && Output(View(), forward, dispatched) == TagByte(old(View()), c, e)
    {
      forward, dispatched := true, None;
      if c == '>' {
        forward, dispatched := CloseTag(e);
      } else if tagBufferIdx < tagBuffer.Length - 1 {
        tagBuffer[tagBufferIdx] := c;
        tagBufferIdx := tagBufferIdx + 1;
        forward := !e.strip;
      } else {
        mode := Searching;
      }
    }

    method HandleByte(c: char, e: Env) returns (forward: bool, dispatched: Option<Command>)
      requires Valid()
      modifies this, tagBuffer, commandBuffer
      ensures Valid() && Output(View(), forward, dispatched) == Handle(old(View()), c, e)
    {
      forward, dispatched := true, None;
      match mode
      case Searching =>
        if c == '<' {
          mode, tagBufferIdx, charsInState := Detecting, 0, 0;
          forward := !e.strip;
        }
      case Detecting =>
        forward, dispatched := InTag(c, e);
      case InCommand =>
        if c == '<' {
          mode, tagBufferIdx := Detecting, 0;
        } else {
          InBody(c);
        }
        forward := !e.strip;
    }

    /** The timeout: a tag or a body that goes on for too long is given up. */
    method CountByte() returns (stuck: bool)
      requires Valid()
      modifies this
      ensures Valid() && View() == Counted(old(View()))
      ensures stuck == TimesOut(old(View()))
    {
      if mode != Searching {
        charsInState := charsInState + 1;
        if charsInState > TIMEOUT {
          Clear();
          return true;
        }
      }
      return false;
    }

    /** process_command_tag_byte. */
    method ProcessByte(c: char, e: Env) returns (forward: bool, dispatched: Option<Command>)
      requires Valid()
      modifies this, tagBuffer, commandBuffer
      ensures Valid() && Output(View(), forward, dispatched) == Step(old(View()), c, e)
    {
      if e.flashing { return true, None; }
      var stuck := CountByte();
      if stuck { return true, None; }
      forward, dispatched := HandleByte(c, e);
    }
  }
}
