/**
  The stack-driven tree builder of geo_parser.h: `popAndPushToken` and the
  single left-to-right pass `geo_parser`.

  The stack holds tokens by value, bottom first. The caller's root is an
  ordinary entry once it has been pushed; `Frame.rootPushed` records that the
  bottom entry stands for it. The two paths on which the source has undefined
  behaviour end in a distinct result, `Undefined`, instead of an error kind:
  `StackUnderflow` when a ',' or ']' finds fewer than two entries (the source
  calls `top()` on an empty stack), and `CursorPastEnd` when input ends inside
  an identifier or a number without an error (the source increments its
  iterator past `end()`).
 */
module Builder {
  import opened Text
  import opened Tokens
  import opened Lexer

  datatype Frame = Frame(stack: seq<Node>, rootPushed: bool)

  datatype Hazard = StackUnderflow | CursorPastEnd

  /** How the pass ends: with an error kind and the stack as it stood, or on undefined behaviour. */
  datatype Halt = Stopped(error: ParserError, frame: Frame) | Broke(hazard: Hazard)

  /** What the caller sees: the returned error kind and its root object afterwards. */
  datatype Outcome = Finished(error: ParserError, root: Node) | Undefined(hazard: Hazard)

  /**
    One ',' or ']' step: removes the top entry and appends it as the last child
    of the entry below it. Everything else on the stack, and the earlier
    children of the new top, are left as they were.
   */
  function PopAndPush(stack: seq<Node>): (r: seq<Node>)
    requires |stack| >= 2
    ensures |r| == |stack| - 1
    ensures forall k :: 0 <= k < |r| - 1 ==> r[k] == stack[k]
    ensures var parent, top := stack[|stack| - 2], r[|r| - 1];
      && top.kind == parent.kind && top.text == parent.text && top.isDouble == parent.isDouble
      && |top.children| == |parent.children| + 1
      && top.children[..|parent.children|] == parent.children
      && top.children[|parent.children|] == stack[|stack| - 1]
  {
    var child := stack[|stack| - 1];
    var rest := stack[..|stack| - 1];
    var parent := rest[|rest| - 1];
    rest[..|rest| - 1] + [parent.(children := parent.children + [child])]
  }

  /** Pushes a fresh token. */
  function Push(f: Frame, n: Node): Frame {
    f.(stack := f.stack + [n])
  }

  /** Once pushed, the caller's root is the bottom entry and is an array. */
  predicate RootAtBottom(f: Frame) {
    f.rootPushed ==> |f.stack| >= 1 && f.stack[0].kind == Array
  }

  /** A character the pass accepts between values: none of these is a syntax error at top level. */
  predicate Expected(c: char) {
    IsAlpha(c) || IsNumberStart(c) || IsQuote(c) || IsTerminator(c) || Skip(c)
  }

  /** What one iteration of the pass does: go on from cursor `next` with stack `frame`, or end. */
  datatype Step = Continue(next: nat, frame: Frame) | Done(halt: Halt)

  /**
    One iteration of the loop body, for the character under cursor `i`. A
    letter starts an identifier, a digit or sign a number, '"' a string;
    ',' and ']' pop and attach; whitespace is passed over; anything else is a
    syntax error. A scanner's error ends the pass with the stack as it was.
   */
  function StepAt(s: string, i: nat, root: Node, f: Frame): (r: Step)
    requires i < |s|
    requires RootAtBottom(f)
    ensures r.Continue? ==> i < r.next <= |s| && RootAtBottom(r.frame)
    ensures r.Done? && r.halt.Stopped? ==> r.halt.frame == f
    ensures r.Done? && r.halt.Stopped? ==> r.halt.error == SyntaxError || r.halt.error == UnclosedQuotes
  {
    var c := s[i];
    if IsAlpha(c) then
      var a := ProcessAlpha("", s, i);
      if a.error != NoError then Done(Stopped(a.error, f))
      else
        var f' := if |f.stack| == 0 then Frame([UpdateToken(root, Array, a.output)], true)
                  else Push(f, CreateToken(Array, a.output));
        if a.cursor == |s| then Done(Broke(CursorPastEnd))
        else Continue(a.cursor + 1, f')
    else if IsNumberStart(c) then
      var d := ProcessDigit("", s, i);
      if d.error != NoError then Done(Stopped(d.error, f))
      else if d.cursor == |s| then Done(Broke(CursorPastEnd))
      else Continue(d.cursor + 1, Push(f, CreateToken(Primitive, d.output)))
    else if IsQuote(c) then
      var q := ProcessString("", s, i + 1);
      if q.error != NoError then Done(Stopped(q.error, f))
      else Continue(q.cursor + 1, Push(f, CreateToken(String, q.output)))
    else if IsTerminator(c) then
      if |f.stack| < 2 then Done(Broke(StackUnderflow))
      else Continue(i + 1, f.(stack := PopAndPush(f.stack)))
    else if Skip(c) then Continue(i + 1, f)
    else Done(Stopped(SyntaxError, f))
  }

  /**
    The pass from cursor `i` on, with stack `f`. The first error ends it and
    is what it returns; only `NoError`, `SyntaxError` and `UnclosedQuotes` can
    come out, never `InvalidValue` or `UnclosedBrackets`.
   */
  function Drive(s: string, i: nat, root: Node, f: Frame): (r: Halt)
    requires i <= |s|
    requires RootAtBottom(f)
    ensures r.Stopped? ==> r.error == NoError || r.error == SyntaxError || r.error == UnclosedQuotes
    ensures r.Stopped? ==> RootAtBottom(r.frame)
    decreases |s| - i, 1
  {
    if i == |s| then Stopped(NoError, f) else Resume(s, i, root, f)
  }

  /** The iteration at cursor `i` followed by the rest of the pass. */
  function Resume(s: string, i: nat, root: Node, f: Frame): (r: Halt)
    requires i < |s|
    requires RootAtBottom(f)
    ensures r.Stopped? ==> r.error == NoError || r.error == SyntaxError || r.error == UnclosedQuotes
    ensures r.Stopped? ==> RootAtBottom(r.frame)
    decreases |s| - i, 0
  {
    match StepAt(s, i, root, f)
    case Continue(j, g) => Drive(s, j, root, g)
    case Done(h) => h
  }

  /**
    `geo_parser`: one pass over `input` starting from an empty stack. The
    caller's `root` comes back overwritten when the first value was an
    identifier, and unchanged otherwise.
   */
  function GeoParser(input: string, root: Node): (r: Outcome)
    ensures r.Finished? ==> r.error == NoError || r.error == SyntaxError || r.error == UnclosedQuotes
    ensures r.Finished? ==> r.root == root || r.root.kind == Array
  {
    match Drive(input, 0, root, Frame([], false))
    case Stopped(e, f) => Finished(e, if f.rootPushed then f.stack[0] else root)
    case Broke(h) => Undefined(h)
  }

  // ---------------------------------------------------------------- what the pass preserves

  /** The bottom entry after one pop-and-attach step, when it is the root. */
  lemma PopAndPushKeepsBottom(stack: seq<Node>)
    requires |stack| >= 2
    ensures var r := PopAndPush(stack);
      && r[0].kind == stack[0].kind && r[0].text == stack[0].text && r[0].isDouble == stack[0].isDouble
      && stack[0].children <= r[0].children
  {
    var r := PopAndPush(stack);
    if |stack| == 2 {
      assert r[0].children[..|stack[0].children|] == stack[0].children;
    }
  }

  /**
    Once pushed, the caller's root is never popped: it stays at the bottom,
    keeps the kind and label it was given, and only gains children at the end.
   */
  lemma StepKeepsRoot(s: string, i: nat, root: Node, f: Frame)
    requires i < |s|
    requires RootAtBottom(f) && f.rootPushed
    ensures var r := StepAt(s, i, root, f);
      r.Continue? ==>
        && r.frame.rootPushed
        && r.frame.stack[0].text == f.stack[0].text
        && r.frame.stack[0].isDouble == f.stack[0].isDouble
        && f.stack[0].children <= r.frame.stack[0].children
  {
    if IsTerminator(s[i]) && |f.stack| >= 2 {
      PopAndPushKeepsBottom(f.stack);
    }
  }

  lemma {:induction false} DriveKeepsRoot(s: string, i: nat, root: Node, f: Frame)
    requires i <= |s|
    requires RootAtBottom(f) && f.rootPushed
    ensures var r := Drive(s, i, root, f);
      r.Stopped? ==>
        && r.frame.rootPushed
        && r.frame.stack[0].kind == Array
        && r.frame.stack[0].text == f.stack[0].text
        && r.frame.stack[0].isDouble == f.stack[0].isDouble
        && f.stack[0].children <= r.frame.stack[0].children
    decreases |s| - i
  {
    if i < |s| {
      StepKeepsRoot(s, i, root, f);
      match StepAt(s, i, root, f)
      case Continue(j, g) => DriveKeepsRoot(s, j, root, g);
      case Done(h) =>
    }
  }

  // ---------------------------------------------------------------- token shapes

  /**
    The shape each scanner gives the token it produces: an array is named by
    an identifier, a string has no '"' in it, a primitive is a non-empty run of
    digits, '.', '+' and '-' that starts with a digit or a sign, and only a
    primitive with a '.' is flagged as a double.
   */
  predicate Lexical(n: Node) {
    match n.kind
    case Array => IsIdentifier(n.text) && !n.isDouble
    case String => '"' !in n.text && !n.isDouble
    case Primitive =>
      && |n.text| > 0 && IsNumberStart(n.text[0]) && AllChars(IsNumberChar, n.text)
      && (n.isDouble <==> '.' in n.text)
  }

  /** A subtree built by the pass: every token in it has its scanner's shape. */
  predicate Created(n: Node)
    decreases n
  {
    Lexical(n) && forall k :: 0 <= k < |n.children| ==> Created(n.children[k])
  }

  /** The caller's root, once filled in: an identifier-named array whose added children were all built by the pass. */
  predicate RootFilled(root: Node, r: Node) {
    && r.kind == Array && IsIdentifier(r.text) && r.isDouble == root.isDouble
    && root.children <= r.children
    && forall k :: |root.children| <= k < |r.children| ==> Created(r.children[k])
  }

  /** The stack invariant: the root (if pushed) is filled in, every other entry was built by the pass. */
  predicate FrameOk(root: Node, f: Frame) {
    && RootAtBottom(f)
    && (f.rootPushed ==> RootFilled(root, f.stack[0]))
    && forall k :: (if f.rootPushed then 1 else 0) <= k < |f.stack| ==> Created(f.stack[k])
  }

  lemma AttachKeepsCreated(parent: Node, child: Node)
    requires Created(parent) && Created(child)
    ensures Created(parent.(children := parent.children + [child]))
  {
    var p' := parent.(children := parent.children + [child]);
    assert forall k :: 0 <= k < |p'.children| ==> p'.children[k] == if k < |parent.children| then parent.children[k] else child;
  }

  lemma AttachKeepsRootFilled(root: Node, parent: Node, child: Node)
    requires RootFilled(root, parent) && Created(child)
    ensures RootFilled(root, parent.(children := parent.children + [child]))
  {
    var p' := parent.(children := parent.children + [child]);
    assert forall k :: 0 <= k < |p'.children| ==> p'.children[k] == if k < |parent.children| then parent.children[k] else child;
  }

  lemma PopAndPushKeepsFrame(root: Node, f: Frame)
    requires FrameOk(root, f) && |f.stack| >= 2
    ensures FrameOk(root, f.(stack := PopAndPush(f.stack)))
  {
    var st := f.stack;
    var n := |st|;
    var r := PopAndPush(st);
    var parent, child := st[n - 2], st[n - 1];
    assert r[n - 2] == parent.(children := parent.children + [child]) by {
      assert r[n - 2].children == parent.children + [child];
    }
    if f.rootPushed && n == 2 {
      AttachKeepsRootFilled(root, parent, child);
    } else {
      AttachKeepsCreated(parent, child);
    }
  }

  /** The token the identifier scanner yields, when it meets a '[' after a letter. */
  lemma AlphaTokenIsLexical(s: string, i: nat)
    requires i < |s| && IsAlpha(s[i])
    ensures var a := ProcessAlpha("", s, i);
      a.cursor < |s| ==> IsIdentifier(a.output)
  {
    var a := ProcessAlpha("", s, i);
    if a.cursor < |s| {
      assert a.cursor > i;
      assert a.output == [s[i]] + Filter(IsAlnum, s, i + 1, a.cursor);
    }
  }

  /** The token the number scanner yields, when it meets a terminator after a digit or sign. */
  lemma DigitTokenIsLexical(s: string, i: nat)
    requires i < |s| && IsNumberStart(s[i])
    ensures var d := ProcessDigit("", s, i);
      d.cursor < |s| ==> Lexical(CreateToken(Primitive, d.output))
  {
    var d := ProcessDigit("", s, i);
    var stop := FindFirst(IsTerminator, s, i);
    if d.cursor < |s| {
      assert stop > i;
      assert d.output == [s[i]] + Filter(IsNumberChar, s, i + 1, stop);
    }
  }

  /** The token the string scanner yields, when it meets the closing quote. */
  lemma StringTokenIsLexical(s: string, i: nat)
    requires i <= |s|
    ensures var q := ProcessString("", s, i);
      q.cursor < |s| ==> '"' !in q.output
  {
    var q := ProcessString("", s, i);
    if q.cursor < |s| {
      forall j | 0 <= j < |q.output|
        ensures q.output[j] != '"'
      {
        assert q.output[j] == s[i + j];
      }
    }
  }

  lemma StepKeepsFrame(s: string, i: nat, root: Node, f: Frame)
    requires i < |s|
    requires FrameOk(root, f)
    ensures var r := StepAt(s, i, root, f);
      r.Continue? ==> FrameOk(root, r.frame)
  {
    var c := s[i];
    if IsAlpha(c) {
      NameStepKeepsFrame(s, i, root, f);
    } else if IsNumberStart(c) {
      NumberStepKeepsFrame(s, i, root, f);
    } else if IsQuote(c) {
      StringTokenIsLexical(s, i + 1);
    } else if IsTerminator(c) && |f.stack| >= 2 {
      PopAndPushKeepsFrame(root, f);
    }
  }

  /** An iteration that reads a name keeps the stack invariant. */
  lemma NameStepKeepsFrame(s: string, i: nat, root: Node, f: Frame)
    requires i < |s| && IsAlpha(s[i])
    requires FrameOk(root, f)
    ensures var r := StepAt(s, i, root, f);
      r.Continue? ==> FrameOk(root, r.frame)
  {
    AlphaTokenIsLexical(s, i);
  }

  /** An iteration that reads a number keeps the stack invariant. */
  lemma NumberStepKeepsFrame(s: string, i: nat, root: Node, f: Frame)
    requires i < |s| && IsNumberStart(s[i])
    requires FrameOk(root, f)
    ensures var r := StepAt(s, i, root, f);
      r.Continue? ==> FrameOk(root, r.frame)
  {
    DigitTokenIsLexical(s, i);
  }

  /** The stack invariant holds through the whole pass. */
  lemma {:induction false} DriveKeepsFrame(s: string, i: nat, root: Node, f: Frame)
    requires i <= |s|
    requires FrameOk(root, f)
    ensures var r := Drive(s, i, root, f);
      r.Stopped? ==> FrameOk(root, r.frame)
    decreases |s| - i
  {
    if i < |s| {
      StepKeepsFrame(s, i, root, f);
      match StepAt(s, i, root, f)
      case Continue(j, g) => DriveKeepsFrame(s, j, root, g);
      case Done(h) =>
    }
  }

  /**
    What a finished pass leaves in the caller's root, error or not: either
    the root is untouched (the first value was not an identifier), or it is an
    array named by an identifier, its earlier children are still there, and
    every child the pass attached has its scanner's shape all the way down.
   */
  lemma ParsedTreeIsLexical(input: string, root: Node)
    ensures var r := GeoParser(input, root);
      r.Finished? ==> r.root == root || RootFilled(root, r.root)
  {
    DriveKeepsFrame(input, 0, root, Frame([], false));
  }

  // ---------------------------------------------------------------- where the pass starts and stops

  /** The pass after an iteration that goes on is the pass from where it goes on. */
  lemma DriveContinues(s: string, i: nat, root: Node, f: Frame)
    requires i < |s| && RootAtBottom(f)
    requires StepAt(s, i, root, f).Continue?
    ensures var r := StepAt(s, i, root, f);
      Drive(s, i, root, f) == Drive(s, r.next, root, r.frame)
  {
  }

  lemma StepOverBlank(s: string, i: nat, root: Node, f: Frame)
    requires i < |s| && Skip(s[i])
    requires RootAtBottom(f)
    ensures StepAt(s, i, root, f) == Continue(i + 1, f)
  {
  }

  /** One blank: the pass from it is the pass from the next character, with the same stack. */
  lemma DriveOverBlank(s: string, i: nat, root: Node, f: Frame)
    requires i < |s| && Skip(s[i])
    requires RootAtBottom(f)
    ensures Drive(s, i, root, f) == Drive(s, i + 1, root, f)
  {
    StepOverBlank(s, i, root, f);
    DriveContinues(s, i, root, f);
  }

  /** Whitespace between values is passed over without touching the stack. */
  lemma DriveSkipsWhitespace(s: string, i: nat, j: nat, root: Node, f: Frame)
    requires i <= j <= |s|
    requires RootAtBottom(f)
    requires forall k :: i <= k < j ==> Skip(s[k])
    ensures Drive(s, i, root, f) == Drive(s, j, root, f)
  {
    var k := i;
    while k < j
      invariant i <= k <= j
      invariant Drive(s, i, root, f) == Drive(s, k, root, f)
    {
      DriveOverBlank(s, k, root, f);
      assert Drive(s, i, root, f) == Drive(s, k + 1, root, f);
      k := k + 1;
    }
  }

  /**
    The root takes the first identifier. When the first non-blank character
    is a letter and the pass finishes, the caller's root is an array labelled
    with that identifier; if the identifier itself is malformed, the pass
    finishes at once with a syntax error and the root untouched.
   */
  lemma RootTakesFirstIdentifier(s: string, j: nat, root: Node)
    requires j < |s| && IsAlpha(s[j])
    requires forall k :: 0 <= k < j ==> Skip(s[k])
    ensures var a, r := ProcessAlpha("", s, j), GeoParser(s, root);
      r.Finished? ==>
        if a.error == NoError then r.root.kind == Array && r.root.text == a.output
        else r == Finished(SyntaxError, root)
  {
    var f0 := Frame([], false);
    DriveSkipsWhitespace(s, 0, j, root, f0);
    match StepAt(s, j, root, f0)
    case Continue(k, g) => DriveKeepsRoot(s, k, root, g);
    case Done(h) =>
  }

  /**
    A character that starts no value and is no delimiter ends the pass with a
    syntax error, the stack as it was, and nothing after it read.
   */
  lemma StrayCharacterStops(s: string, i: nat, root: Node, f: Frame, rest: string)
    requires i < |s| && !Expected(s[i])
    requires RootAtBottom(f)
    ensures Drive(s, i, root, f) == Stopped(SyntaxError, f)
    ensures Drive(s[..i + 1] + rest, i, root, f) == Stopped(SyntaxError, f)
  {
    var s' := s[..i + 1] + rest;
    assert s'[i] == s[i];
  }
}
