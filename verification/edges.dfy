/**
  Small inputs on which the pass does something a reader might not expect,
  each stated as the exact outcome `geo_parser` gives for an arbitrary caller
  root. They pin down behaviour the general lemmas only bound: where an error
  leaves the tree, the two inputs on which the source has undefined
  behaviour, and a bracket that is never closed.
 */
module Edges {
  import opened Text
  import opened Tokens
  import opened Lexer
  import opened Builder
  import opened Printer

  /** A second '[' is a stray character: the pass stops with the root named but childless. */
  lemma DoubleOpen(root: Node)
    ensures GeoParser("A[[1]]", root) == Finished(SyntaxError, UpdateToken(root, Array, "A"))
  {
    var s := "A[[1]]";
    OpensWith(s, "A", root);
    var f := Frame([UpdateToken(root, Array, "A")], true);
    assert !Expected(s[2]);
    StrayCharacterStops(s, 2, root, f, "");
  }

  /** An empty array: ']' finds only the root on the stack, where the source pops an empty stack. */
  lemma Underflow(root: Node)
    ensures GeoParser("A[]", root) == Undefined(StackUnderflow)
  {
    var s := "A[]";
    OpensWith(s, "A", root);
    var f := Frame([UpdateToken(root, Array, "A")], true);
    assert StepAt(s, 2, root, f) == Done(Broke(StackUnderflow));
    assert Drive(s, 2, root, f) == Broke(StackUnderflow);
  }

  /** Input ending inside a number: the source steps its cursor past the end. */
  lemma PastEnd(root: Node)
    ensures GeoParser("A[1", root) == Undefined(CursorPastEnd)
  {
    var s := "A[1";
    OpensWith(s, "A", root);
    var f := Frame([UpdateToken(root, Array, "A")], true);
    assert FindFirst(IsTerminator, s, 2) == 3;
    assert !Stray(IsNumberChar, s, 2, 3);
    assert StepAt(s, 2, root, f) == Done(Broke(CursorPastEnd));
    assert Drive(s, 2, root, f) == Broke(CursorPastEnd);
  }

  /** Digits, signs and points in any mix make one number, and a point marks it as a double. */
  lemma MixedNumber(root: Node)
    ensures GeoParser("A[1-2.3.4]", root)
         == Finished(NoError, UpdateToken(root, Array, "A").(children := root.children + [Node(Primitive, "1-2.3.4", true, [])]))
  {
    var s := "A[1-2.3.4]";
    var f := Frame([UpdateToken(root, Array, "A")], true);
    var n := Node(Primitive, "1-2.3.4", true, []);
    MixedNumberSteps(root);
    ClosingBracketEnds(s, 9, root, UpdateToken(root, Array, "A"), n);
  }

  /** The first two iterations over `A[1-2.3.4]`. */
  lemma MixedNumberSteps(root: Node)
    ensures var s, f := "A[1-2.3.4]", Frame([UpdateToken(root, Array, "A")], true);
      && StepAt(s, 0, root, Frame([], false)) == Continue(2, f)
      && StepAt(s, 2, root, f) == Continue(9, Push(f, Node(Primitive, "1-2.3.4", true, [])))
  {
    var s := "A[1-2.3.4]";
    OpensWith(s, "A", root);
    MixedDigits(s, root, Frame([UpdateToken(root, Array, "A")], true));
  }

  /** The number scan over `A[1-2.3.4]`. */
  lemma MixedDigits(s: string, root: Node, f: Frame)
    requires s == "A[1-2.3.4]" && RootAtBottom(f)
    ensures StepAt(s, 2, root, f) == Continue(9, Push(f, Node(Primitive, "1-2.3.4", true, [])))
  {
    var t := "1-2.3.4";
    assert AllChars(IsNumberChar, t) && s[2..9] == t;
    StepAtNumber(s, 2, t, root, f);
  }

  /**
    Whitespace inside a number is dropped, so two numbers with only a blank
    between them are read as one.
   */
  lemma BlankInsideNumber(root: Node)
    ensures GeoParser("A[1 2]", root)
         == Finished(NoError, UpdateToken(root, Array, "A").(children := root.children + [Node(Primitive, "12", false, [])]))
  {
    var s := "A[1 2]";
    var f := Frame([UpdateToken(root, Array, "A")], true);
    OpensWith(s, "A", root);
    BlankDigits(s, root, f);
    ClosingBracketEnds(s, 5, root, UpdateToken(root, Array, "A"), Node(Primitive, "12", false, []));
  }

  /** The number scan over `A[1 2]`: the blank is passed over and the digits on both sides are kept. */
  lemma BlankDigits(s: string, root: Node, f: Frame)
    requires s == "A[1 2]" && RootAtBottom(f)
    ensures StepAt(s, 2, root, f) == Continue(5, Push(f, Node(Primitive, "12", false, [])))
  {
    assert IsTerminator(s[5]) && !IsTerminator(s[4]) && !IsTerminator(s[3]) && !IsTerminator(s[2]);
    assert FindFirst(IsTerminator, s, 4) == 5;
    assert FindFirst(IsTerminator, s, 2) == 5;
    assert Filter(IsNumberChar, s, 2, 5) == "12";
    assert !Stray(IsNumberChar, s, 2, 5);
  }

  /**
    A final ']' with one value above the filled root attaches the value to
    the root, and the pass ends with no error.
   */
  lemma ClosingBracketEnds(s: string, j: nat, root: Node, top: Node, n: Node)
    requires j + 1 == |s| && s[j] == ']' && top.kind == Array
    ensures Drive(s, j, root, Push(Frame([top], true), n)) == Stopped(NoError, Frame([top.(children := top.children + [n])], true))
  {
    var g := Push(Frame([top], true), n);
    var h := Frame([top.(children := top.children + [n])], true);
    assert StepAt(s, j, root, g) == Continue(j + 1, h);
    assert Drive(s, j + 1, root, h) == Stopped(NoError, h);
    assert Resume(s, j, root, g) == Stopped(NoError, h);
  }

  /**
    A stray character after a value: the pass stops there, keeping what was
    attached before it and dropping the rest of the input.
   */
  lemma StrayAfterValue(root: Node)
    ensures GeoParser("FOO[1,@,2]", root)
         == Finished(SyntaxError, UpdateToken(root, Array, "FOO").(children := root.children + [Node(Primitive, "1", false, [])]))
  {
    var s := "FOO[1,@,2]";
    var f := Frame([UpdateToken(root, Array, "FOO")], true);
    var n := Node(Primitive, "1", false, []);
    OpensWith(s, "FOO", root);
    StrayAfterValueTail(s, root, f, n);
  }

  /** The iterations of `FOO[1,@,2]` after the name. */
  lemma StrayAfterValueTail(s: string, root: Node, f: Frame, n: Node)
    requires s == "FOO[1,@,2]" && f == Frame([UpdateToken(root, Array, "FOO")], true) && n == Node(Primitive, "1", false, [])
    ensures Drive(s, 4, root, f) == Stopped(SyntaxError, Frame([UpdateToken(root, Array, "FOO").(children := root.children + [n])], true))
  {
    StrayDigit(s, root, f);
    var h := Frame([UpdateToken(root, Array, "FOO").(children := root.children + [n])], true);
    assert !Expected(s[6]);
    CommaThenStray(s, 5, root, UpdateToken(root, Array, "FOO"), n);
    assert Resume(s, 4, root, f) == Stopped(SyntaxError, h);
  }

  /**
    A ',' with one value above the filled root attaches the value; a stray
    character right after it then ends the pass with that stack.
   */
  lemma CommaThenStray(s: string, j: nat, root: Node, top: Node, n: Node)
    requires j + 1 < |s| && s[j] == ',' && !Expected(s[j + 1]) && top.kind == Array
    ensures Drive(s, j, root, Push(Frame([top], true), n)) == Stopped(SyntaxError, Frame([top.(children := top.children + [n])], true))
  {
    var g := Push(Frame([top], true), n);
    var h := Frame([top.(children := top.children + [n])], true);
    assert StepAt(s, j, root, g) == Continue(j + 1, h);
    StrayCharacterStops(s, j + 1, root, h, "");
    assert Resume(s, j, root, g) == Stopped(SyntaxError, h);
  }

  /** The number scan over `FOO[1,@,2]`. */
  lemma StrayDigit(s: string, root: Node, f: Frame)
    requires s == "FOO[1,@,2]" && RootAtBottom(f)
    ensures StepAt(s, 4, root, f) == Continue(5, Push(f, Node(Primitive, "1", false, [])))
  {
    assert s[4..5] == "1";
    StepAtNumber(s, 4, "1", root, f);
  }

  /** A string with no closing quote: `UnclosedQuotes`, and the string is not attached. */
  lemma OpenQuote(root: Node)
    ensures GeoParser("FOO[\"abc]", root) == Finished(UnclosedQuotes, UpdateToken(root, Array, "FOO"))
  {
    var s := "FOO[\"abc]";
    OpensWith(s, "FOO", root);
    var f := Frame([UpdateToken(root, Array, "FOO")], true);
    OpenQuoteScan(s, root, f);
    assert Drive(s, 4, root, f) == Stopped(UnclosedQuotes, f);
  }

  /** The string scan over `FOO["abc]`: no closing quote before the end. */
  lemma OpenQuoteScan(s: string, root: Node, f: Frame)
    requires s == "FOO[\"abc]" && RootAtBottom(f)
    ensures StepAt(s, 4, root, f) == Done(Stopped(UnclosedQuotes, f))
  {
    assert FindFirst(IsQuote, s, 5) == 9;
  }

  /**
    A missing ']' is not reported: the pass returns `NoError` and the value
    still on the stack never reaches the root.
   */
  lemma UnclosedBracket(root: Node)
    ensures GeoParser("FOO[\"abc\"", root) == Finished(NoError, UpdateToken(root, Array, "FOO"))
  {
    var s := "FOO[\"abc\"";
    var f := Frame([UpdateToken(root, Array, "FOO")], true);
    OpensWith(s, "FOO", root);
    assert s[5..8] == "abc";
    StepAtQuote(s, 4, "abc", root, f);
    assert Drive(s, 9, root, Push(f, CreateToken(String, "abc"))).frame.stack[0] == f.stack[0];
  }

  /** A stray first character: the pass stops before the root is touched. */
  lemma LeadingStray(root: Node)
    ensures GeoParser("@A[1]", root) == Finished(SyntaxError, root)
  {
  }

  /** The first iteration over a leading array name: the caller's root takes the name and is pushed. */
  lemma OpensWith(s: string, name: string, root: Node)
    requires IsIdentifier(name) && |name| < |s| && s[..|name|] == name && s[|name|] == '['
    ensures StepAt(s, 0, root, Frame([], false)) == Continue(|name| + 1, Frame([UpdateToken(root, Array, name)], true))
  {
    assert s[0..|name|] == s[..|name|];
    StepAtName(s, 0, name, root, Frame([], false));
  }
}
