/**
  The notation the parser reads, written out from a tree, and the theorem that
  ties the two together: for every well-formed tree whose arrays all have
  children, one pass over its printed form succeeds and rebuilds exactly that
  tree in the caller's root, children in textual order.

  Printed text has no whitespace, numbers are printed as their raw text and
  strings between double quotes with nothing escaped, as in
  `PROJCS["UTM",UNIT["Meter",1]]`.
 */
module Printer {
  import opened Text
  import opened Tokens
  import opened Lexer
  import opened Builder

  /**
    A tree the notation can express: every token has its scanner's shape,
    every array has at least one child and strings and numbers have none.
   */
  predicate WellFormed(n: Node)
    decreases n
  {
    && Lexical(n)
    && (n.kind == Array ==> |n.children| > 0)
    && (n.kind != Array ==> n.children == [])
    && forall k :: 0 <= k < |n.children| ==> WellFormed(n.children[k])
  }

  /** The text of one value: `NAME[v,...,v]`, `"body"` or the number's raw text. */
  function Print(n: Node): string
    decreases n, 1, 0
  {
    match n.kind
    case Array => n.text + "[" + (if |n.children| == 0 then "]" else PrintItems(n, 0))
    case String => "\"" + n.text + "\""
    case Primitive => n.text
  }

  /** The children of `n` from the `i`-th on, separated by ',' and followed by the closing ']'. */
  function PrintItems(n: Node, i: nat): string
    requires i < |n.children|
    decreases n, 0, |n.children| - i
  {
    Print(n.children[i]) + (if i + 1 == |n.children| then "]" else "," + PrintItems(n, i + 1))
  }

  /** The stack with `cs` appended to the children of its top entry. */
  function AppendTop(f: Frame, cs: seq<Node>): (g: Frame)
    requires |f.stack| >= 1
    ensures |g.stack| == |f.stack| && g.rootPushed == f.rootPushed
    ensures RootAtBottom(f) ==> RootAtBottom(g)
  {
    var top := f.stack[|f.stack| - 1];
    f.(stack := f.stack[..|f.stack| - 1] + [top.(children := top.children + cs)])
  }

  // ---------------------------------------------------------------- the scanners on printed text

  lemma ScanIdentifier(s: string, i: nat, name: string)
    requires IsIdentifier(name)
    requires i + |name| < |s| && s[i..i + |name|] == name && s[i + |name|] == '['
    ensures ProcessAlpha("", s, i) == Scan(NoError, name, i + |name|)
  {
    var e := i + |name|;
    assert forall k :: i <= k < e ==> s[k] == name[k - i];
    assert forall k :: i <= k < e ==> IsAlnum(s[k]) && !IsOpenBracket(s[k]);
    assert FindFirst(IsOpenBracket, s, i) == e;
    assert !Stray(IsAlnum, s, i, e);
    FilterKeepsAll(IsAlnum, s, i, e);
  }

  lemma ScanNumber(s: string, i: nat, t: string)
    requires |t| > 0 && IsNumberStart(t[0]) && AllChars(IsNumberChar, t)
    requires i + |t| < |s| && s[i..i + |t|] == t && IsTerminator(s[i + |t|])
    ensures ProcessDigit("", s, i) == Scan(NoError, t, i + |t| - 1)
  {
    var e := i + |t|;
    assert forall k :: i <= k < e ==> s[k] == t[k - i];
    var stop := FindFirst(IsTerminator, s, i);
    assert stop == e;
    FilterKeepsAll(IsNumberChar, s, i, e);
  }

  lemma ScanQuoted(s: string, i: nat, body: string)
    requires '"' !in body
    requires i + |body| < |s| && s[i..i + |body|] == body && s[i + |body|] == '"'
    ensures ProcessString("", s, i) == Scan(NoError, body, i + |body|)
  {
    var q := ProcessString("", s, i);
    var e := i + |body|;
    assert forall k :: i <= k < e ==> s[k] == body[k - i];
  }

  // ---------------------------------------------------------------- one iteration on printed text

  lemma StepAtName(s: string, i: nat, name: string, root: Node, f: Frame)
    requires IsIdentifier(name)
    requires i + |name| < |s| && s[i..i + |name|] == name && s[i + |name|] == '['
    requires RootAtBottom(f)
    ensures StepAt(s, i, root, f) == Continue(i + |name| + 1,
      if |f.stack| == 0 then Frame([UpdateToken(root, Array, name)], true)
      else Push(f, CreateToken(Array, name)))
  {
    assert s[i] == name[0];
    ScanIdentifier(s, i, name);
  }

  lemma StepAtNumber(s: string, i: nat, t: string, root: Node, f: Frame)
    requires |t| > 0 && IsNumberStart(t[0]) && AllChars(IsNumberChar, t)
    requires i + |t| < |s| && s[i..i + |t|] == t && IsTerminator(s[i + |t|])
    requires RootAtBottom(f)
    ensures StepAt(s, i, root, f) == Continue(i + |t|, Push(f, CreateToken(Primitive, t)))
  {
    assert s[i] == t[0];
    ScanNumber(s, i, t);
  }

  lemma StepAtQuote(s: string, i: nat, body: string, root: Node, f: Frame)
    requires '"' !in body
    requires i + |body| + 1 < |s| && s[i] == '"' && s[i + 1..i + 1 + |body|] == body && s[i + 1 + |body|] == '"'
    requires RootAtBottom(f)
    ensures StepAt(s, i, root, f) == Continue(i + |body| + 2, Push(f, CreateToken(String, body)))
  {
    ScanQuoted(s, i + 1, body);
  }

  lemma StepAtTerminator(s: string, i: nat, root: Node, f: Frame)
    requires i < |s| && IsTerminator(s[i])
    requires RootAtBottom(f) && |f.stack| >= 2
    ensures StepAt(s, i, root, f) == Continue(i + 1, f.(stack := PopAndPush(f.stack)))
  {
  }

  /** Attaching the value just pushed is appending it to the children of the entry below. */
  lemma PopAndPushAppends(f: Frame, n: Node)
    requires |f.stack| >= 1
    ensures PopAndPush(f.stack + [n]) == AppendTop(f, [n]).stack
  {
    var st := f.stack + [n];
    assert st[..|st| - 1] == f.stack;
  }

  lemma AppendTopTwice(f: Frame, a: seq<Node>, b: seq<Node>)
    requires |f.stack| >= 1
    ensures AppendTop(AppendTop(f, a), b) == AppendTop(f, a + b)
  {
    var g := AppendTop(f, a);
    assert g.stack[..|g.stack| - 1] == f.stack[..|f.stack| - 1];
    var top := f.stack[|f.stack| - 1];
    assert top.children + a + b == top.children + (a + b);
  }

  // ---------------------------------------------------------------- slicing printed text

  /** Splitting a stretch of `s` that holds `a + b` into its two parts. */
  lemma Split(s: string, i: nat, a: string, b: string)
    requires i + |a| + |b| <= |s| && s[i..i + |a| + |b|] == a + b
    ensures s[i..i + |a|] == a && s[i + |a|..i + |a| + |b|] == b
  {
    assert s[i..i + |a|] == s[i..i + |a| + |b|][..|a|];
    assert s[i + |a|..i + |a| + |b|] == s[i..i + |a| + |b|][|a|..];
  }

  /** Splitting a stretch of `s` that holds `a + (b + c)` into its three parts. */
  lemma Split3(s: string, i: nat, a: string, b: string, c: string)
    requires i + |a + (b + c)| <= |s| && s[i..i + |a + (b + c)|] == a + (b + c)
    ensures s[i..i + |a|] == a && s[i + |a|..i + |a| + |b|] == b
    ensures s[i + |a| + |b|..i + |a| + |b| + |c|] == c
  {
    Split(s, i, a, b + c);
    Split(s, i + |a|, b, c);
  }

  /** A one-character stretch is that character. */
  lemma CharAt(s: string, j: nat, t: string)
    requires |t| == 1 && j + 1 <= |s| && s[j..j + 1] == t
    ensures s[j] == t[0]
  {
    assert s[j] == s[j..j + 1][0];
  }

  lemma PrintArrayShape(n: Node)
    requires n.kind == Array && |n.children| > 0
    ensures Print(n) == n.text + ("[" + PrintItems(n, 0))
  {
  }

  lemma PrintStringShape(n: Node)
    requires n.kind == String
    ensures Print(n) == "\"" + (n.text + "\"")
  {
  }

  lemma PrintItemsShape(n: Node, k: nat)
    requires k < |n.children|
    ensures PrintItems(n, k) == Print(n.children[k])
      + (if k + 1 == |n.children| then "]" else ",")
      + (if k + 1 == |n.children| then "" else PrintItems(n, k + 1))
  {
  }

  /** A printed array is its name, a '[' and its items. */
  lemma ArraySplit(s: string, i: nat, n: Node)
    requires n.kind == Array && |n.children| > 0
    requires i + |Print(n)| <= |s| && s[i..i + |Print(n)|] == Print(n)
    ensures var name, items := n.text, PrintItems(n, 0);
      && |Print(n)| == |name| + 1 + |items|
      && s[i..i + |name|] == name && s[i + |name|] == '['
      && s[i + |name| + 1..i + |name| + 1 + |items|] == items
  {
    PrintArrayShape(n);
    OpenSplit(s, i, n.text, PrintItems(n, 0));
  }

  lemma OpenSplit(s: string, i: nat, name: string, items: string)
    requires i + |name + ("[" + items)| <= |s| && s[i..i + |name + ("[" + items)|] == name + ("[" + items)
    ensures |name + ("[" + items)| == |name| + 1 + |items|
    ensures s[i..i + |name|] == name && s[i + |name|] == '['
    ensures s[i + |name| + 1..i + |name| + 1 + |items|] == items
  {
    Split3(s, i, name, "[", items);
    CharAt(s, i + |name|, "[");
  }

  /** The printed children from the `k`-th on: the `k`-th child, its terminator, then the rest. */
  lemma ItemsSplit(s: string, i: nat, n: Node, k: nat)
    requires k < |n.children|
    requires i + |PrintItems(n, k)| <= |s| && s[i..i + |PrintItems(n, k)|] == PrintItems(n, k)
    ensures var c, j := n.children[k], i + |Print(n.children[k])|;
      && j < |s| && s[i..j] == Print(c)
      && s[j] == (if k + 1 == |n.children| then ']' else ',')
      && (k + 1 < |n.children| ==>
            j + 1 + |PrintItems(n, k + 1)| <= |s|
            && s[j + 1..j + 1 + |PrintItems(n, k + 1)|] == PrintItems(n, k + 1))
      && |PrintItems(n, k)| == |Print(c)| + 1 + (if k + 1 == |n.children| then 0 else |PrintItems(n, k + 1)|)
  {
    var last := k + 1 == |n.children|;
    var p, sep, rest := Print(n.children[k]), (if last then "]" else ","), (if last then "" else PrintItems(n, k + 1));
    PrintItemsShape(n, k);
    assert PrintItems(n, k) == p + (sep + rest);
    Split3(s, i, p, sep, rest);
    CharAt(s, i + |p|, sep);
  }

  // ---------------------------------------------------------------- one value at a time

  /**
    The outcome of the pass from cursor `i` with stack `f`: `Drive` with the
    arguments in the order the lemmas below step through them. The lemmas
    chain equalities between such outcomes, one value at a time.
   */
  function PassFrom(s: string, root: Node, i: nat, f: Frame): Halt
    requires i <= |s| && RootAtBottom(f)
  {
    Drive(s, i, root, f)
  }

  /** Chaining two stretches of the pass; a separate step keeps each proof that uses it small. */
  lemma PassTrans(s: string, root: Node, i: nat, f: Frame, j: nat, g: Frame, k: nat, h: Frame)
    requires i <= |s| && j <= |s| && k <= |s| && RootAtBottom(f) && RootAtBottom(g) && RootAtBottom(h)
    requires PassFrom(s, root, i, f) == PassFrom(s, root, j, g) && PassFrom(s, root, j, g) == PassFrom(s, root, k, h)
    ensures PassFrom(s, root, i, f) == PassFrom(s, root, k, h)
  {
  }

  /** The pass after an iteration is the pass from where the iteration goes on. */
  lemma DriveGoesOn(s: string, i: nat, root: Node, f: Frame, j: nat, g: Frame)
    requires i < |s| && j <= |s| && RootAtBottom(f) && RootAtBottom(g)
    requires StepAt(s, i, root, f) == Continue(j, g)
    ensures PassFrom(s, root, i, f) == PassFrom(s, root, j, g)
  {
    DriveContinues(s, i, root, f);
  }

  /** An identifier followed by '[' on a non-empty stack pushes a fresh array token. */
  lemma ReadName(s: string, i: nat, name: string, root: Node, f: Frame)
    requires IsIdentifier(name)
    requires i + |name| < |s| && s[i..i + |name|] == name && s[i + |name|] == '['
    requires |f.stack| >= 1 && RootAtBottom(f)
    ensures RootAtBottom(Push(f, CreateToken(Array, name)))
    ensures PassFrom(s, root, i, f) == PassFrom(s, root, i + |name| + 1, Push(f, CreateToken(Array, name)))
  {
    StepAtName(s, i, name, root, f);
    DriveGoesOn(s, i, root, f, i + |name| + 1, Push(f, CreateToken(Array, name)));
  }

  /** The first identifier, followed by '[', relabels the caller's root and pushes it. */
  lemma ReadRootName(s: string, name: string, root: Node)
    requires IsIdentifier(name)
    requires |name| < |s| && s[..|name|] == name && s[|name|] == '['
    ensures PassFrom(s, root, 0, Frame([], false)) == PassFrom(s, root, |name| + 1, Frame([UpdateToken(root, Array, name)], true))
  {
    var f0, f1 := Frame([], false), Frame([UpdateToken(root, Array, name)], true);
    assert s[0..|name|] == s[..|name|];
    StepAtName(s, 0, name, root, f0);
    DriveGoesOn(s, 0, root, f0, |name| + 1, f1);
  }

  /** A number followed by a terminator pushes a primitive token; the cursor stops on the terminator. */
  lemma ReadNumber(s: string, i: nat, t: string, root: Node, f: Frame)
    requires |t| > 0 && IsNumberStart(t[0]) && AllChars(IsNumberChar, t)
    requires i + |t| < |s| && s[i..i + |t|] == t && IsTerminator(s[i + |t|])
    requires RootAtBottom(f)
    ensures RootAtBottom(Push(f, CreateToken(Primitive, t)))
    ensures PassFrom(s, root, i, f) == PassFrom(s, root, i + |t|, Push(f, CreateToken(Primitive, t)))
  {
    StepAtNumber(s, i, t, root, f);
    DriveGoesOn(s, i, root, f, i + |t|, Push(f, CreateToken(Primitive, t)));
  }

  /** A quoted body pushes a string token; the cursor goes past the closing quote. */
  lemma ReadQuoted(s: string, i: nat, body: string, root: Node, f: Frame)
    requires '"' !in body
    requires i + |body| + 1 < |s| && s[i] == '"' && s[i + 1..i + 1 + |body|] == body && s[i + 1 + |body|] == '"'
    requires RootAtBottom(f)
    ensures RootAtBottom(Push(f, CreateToken(String, body)))
    ensures PassFrom(s, root, i, f) == PassFrom(s, root, i + |body| + 2, Push(f, CreateToken(String, body)))
  {
    StepAtQuote(s, i, body, root, f);
    DriveGoesOn(s, i, root, f, i + |body| + 2, Push(f, CreateToken(String, body)));
  }

  /** A ',' or ']' after a value just pushed attaches it to the entry below. */
  lemma ReadTerminator(s: string, j: nat, root: Node, f: Frame, c: Node)
    requires j < |s| && IsTerminator(s[j])
    requires |f.stack| >= 1 && RootAtBottom(f)
    ensures RootAtBottom(Push(f, c)) && RootAtBottom(AppendTop(f, [c]))
    ensures PassFrom(s, root, j, Push(f, c)) == PassFrom(s, root, j + 1, AppendTop(f, [c]))
  {
    StepAtTerminator(s, j, root, Push(f, c));
    PopAndPushAppends(f, c);
    DriveGoesOn(s, j, root, Push(f, c), j + 1, AppendTop(f, [c]));
  }

  // ---------------------------------------------------------------- the round trip

  /**
    A well-formed value followed by a terminator is read in full and leaves
    exactly that value on top of the stack.
   */
  lemma {:induction false} ParseValue(s: string, i: nat, n: Node, root: Node, f: Frame)
    requires WellFormed(n)
    requires |f.stack| >= 1 && RootAtBottom(f)
    requires i + |Print(n)| < |s| && s[i..i + |Print(n)|] == Print(n) && IsTerminator(s[i + |Print(n)|])
    ensures PassFrom(s, root, i, f) == PassFrom(s, root, i + |Print(n)|, Push(f, n))
    decreases n, 2, 0
  {
    match n.kind
    case Array => ParseArray(s, i, n, root, f);
    case String => ParseString(s, i, n, root, f);
    case Primitive => ParseNumber(s, i, n, root, f);
  }

  lemma ParseString(s: string, i: nat, n: Node, root: Node, f: Frame)
    requires WellFormed(n) && n.kind == String
    requires |f.stack| >= 1 && RootAtBottom(f)
    requires i + |Print(n)| <= |s| && s[i..i + |Print(n)|] == Print(n)
    ensures PassFrom(s, root, i, f) == PassFrom(s, root, i + |Print(n)|, Push(f, n))
  {
    var b := n.text;
    PrintStringShape(n);
    Split3(s, i, "\"", b, "\"");
    CharAt(s, i, "\"");
    CharAt(s, i + 1 + |b|, "\"");
    assert CreateToken(String, b) == n;
    ReadQuoted(s, i, b, root, f);
  }

  lemma ParseNumber(s: string, i: nat, n: Node, root: Node, f: Frame)
    requires WellFormed(n) && n.kind == Primitive
    requires |f.stack| >= 1 && RootAtBottom(f)
    requires i + |Print(n)| < |s| && s[i..i + |Print(n)|] == Print(n) && IsTerminator(s[i + |Print(n)|])
    ensures PassFrom(s, root, i, f) == PassFrom(s, root, i + |Print(n)|, Push(f, n))
  {
    assert Print(n) == n.text;
    assert CreateToken(Primitive, n.text) == n;
    ReadNumber(s, i, n.text, root, f);
  }

  lemma {:induction false} ParseArray(s: string, i: nat, n: Node, root: Node, f: Frame)
    requires WellFormed(n) && n.kind == Array
    requires |f.stack| >= 1 && RootAtBottom(f)
    requires i + |Print(n)| <= |s| && s[i..i + |Print(n)|] == Print(n)
    ensures PassFrom(s, root, i, f) == PassFrom(s, root, i + |Print(n)|, Push(f, n))
    decreases n, 1, 0
  {
    ArraySplit(s, i, n);
    ReadName(s, i, n.text, root, f);
    ParseItems(s, i + |n.text| + 1, n, 0, root, Push(f, CreateToken(Array, n.text)));
    OpenArray(f, n);
  }

  /** A pushed array token that then receives all the children of `n` is `n` itself. */
  lemma OpenArray(f: Frame, n: Node)
    requires Lexical(n) && n.kind == Array
    ensures AppendTop(Push(f, CreateToken(Array, n.text)), n.children[0..]) == Push(f, n)
  {
    var f1 := Push(f, CreateToken(Array, n.text));
    assert f1.stack[..|f1.stack| - 1] == f.stack;
    assert [] + n.children[0..] == n.children;
  }

  /** One child and the terminator after it: the child is read and attached to the entry on top. */
  lemma {:induction false} ParseItem(s: string, i: nat, c: Node, root: Node, f: Frame)
    requires WellFormed(c)
    requires |f.stack| >= 1 && RootAtBottom(f)
    requires i + |Print(c)| < |s| && s[i..i + |Print(c)|] == Print(c) && IsTerminator(s[i + |Print(c)|])
    ensures RootAtBottom(AppendTop(f, [c]))
    ensures PassFrom(s, root, i, f) == PassFrom(s, root, i + |Print(c)| + 1, AppendTop(f, [c]))
    decreases c, 3, 0
  {
    var j := i + |Print(c)|;
    ParseValue(s, i, c, root, f);
    ReadTerminator(s, j, root, f, c);
  }

  lemma AppendTopNext(f: Frame, n: Node, k: nat)
    requires |f.stack| >= 1 && k + 1 < |n.children|
    ensures AppendTop(AppendTop(f, [n.children[k]]), n.children[k + 1..]) == AppendTop(f, n.children[k..])
  {
    AppendTopTwice(f, [n.children[k]], n.children[k + 1..]);
    assert [n.children[k]] + n.children[k + 1..] == n.children[k..];
  }

  /**
    The children of a well-formed array from the `k`-th on, with their
    separators and the closing ']', are read in full and appended, in order,
    to the children of the entry on top of the stack.
   */
  lemma {:induction false} ParseItems(s: string, i: nat, n: Node, k: nat, root: Node, f: Frame)
    requires WellFormed(n) && k < |n.children|
    requires |f.stack| >= 1 && RootAtBottom(f)
    requires i + |PrintItems(n, k)| <= |s| && s[i..i + |PrintItems(n, k)|] == PrintItems(n, k)
    ensures PassFrom(s, root, i, f) == PassFrom(s, root, i + |PrintItems(n, k)|, AppendTop(f, n.children[k..]))
    decreases n, 0, |n.children| - k
  {
    var c := n.children[k];
    ItemsSplit(s, i, n, k);
    var j, f1 := i + |Print(c)| + 1, AppendTop(f, [c]);
    if k + 1 == |n.children| {
      assert n.children[k..] == [c];
      ParseItem(s, i, c, root, f);
    } else {
      var e := j + |PrintItems(n, k + 1)|;
      ParseItems(s, j, n, k + 1, root, f1);
      ParseItem(s, i, c, root, f);
      AppendTopNext(f, n, k);
      PassTrans(s, root, i, f, j, f1, e, AppendTop(f1, n.children[k + 1..]));
    }
  }

  /**
    Parsing printed text: for a well-formed array `n`, the pass returns no
    error and the caller's root becomes an array labelled like `n`, with the
    children of `n`, in order, after any it already had.
   */
  lemma ParsePrinted(n: Node, root: Node)
    requires WellFormed(n) && n.kind == Array
    ensures GeoParser(Print(n), root)
      == Finished(NoError, root.(kind := Array, text := n.text, children := root.children + n.children))
  {
    var filled := root.(kind := Array, text := n.text, children := root.children + n.children);
    PassOverPrinted(n, root);
    PassDecides(Print(n), root, Frame([filled], true));
  }

  /** The whole pass over a printed array stops with no error and only the filled-in root on the stack. */
  lemma PassOverPrinted(n: Node, root: Node)
    requires WellFormed(n) && n.kind == Array
    ensures var filled := root.(kind := Array, text := n.text, children := root.children + n.children);
      PassFrom(Print(n), root, 0, Frame([], false)) == Stopped(NoError, Frame([filled], true))
  {
    RootHead(n, root);
    PassOverItems(n, root);
  }

  /** After the root's name, the items of a printed array fill the root and the pass stops at the end. */
  lemma PassOverItems(n: Node, root: Node)
    requires WellFormed(n) && n.kind == Array
    ensures var filled := root.(kind := Array, text := n.text, children := root.children + n.children);
      PassFrom(Print(n), root, |n.text| + 1, Frame([UpdateToken(root, Array, n.text)], true)) == Stopped(NoError, Frame([filled], true))
  {
    var s := Print(n);
    var f1 := Frame([UpdateToken(root, Array, n.text)], true);
    RootHead(n, root);
    ParseItems(s, |n.text| + 1, n, 0, root, f1);
    PassEnds(s, root, AppendTop(f1, n.children[0..]));
    OpenRoot(root, n);
  }

  /** The name and the '[' at the start of a printed array relabel the caller's root, and the items follow. */
  lemma RootHead(n: Node, root: Node)
    requires WellFormed(n) && n.kind == Array
    ensures var s, j, items := Print(n), |n.text| + 1, PrintItems(n, 0);
      && j + |items| == |s| && s[j..j + |items|] == items
      && PassFrom(s, root, 0, Frame([], false)) == PassFrom(s, root, j, Frame([UpdateToken(root, Array, n.text)], true))
  {
    var s := Print(n);
    assert s[0..|s|] == s;
    ArraySplit(s, 0, n);
    ReadRootName(s, n.text, root);
  }

  /** At the end of the input the pass stops with no error and the stack as it is. */
  lemma PassEnds(s: string, root: Node, f: Frame)
    requires RootAtBottom(f)
    ensures PassFrom(s, root, |s|, f) == Stopped(NoError, f)
  {
  }

  /** A pass from the start that stops with no error and the root pushed returns that root. */
  lemma PassDecides(s: string, root: Node, f: Frame)
    requires RootAtBottom(f) && f.rootPushed
    requires PassFrom(s, root, 0, Frame([], false)) == Stopped(NoError, f)
    ensures GeoParser(s, root) == Finished(NoError, f.stack[0])
  {
  }

  /** The caller's root, relabelled by the first identifier, then receiving all the children of `n`. */
  lemma OpenRoot(root: Node, n: Node)
    ensures AppendTop(Frame([UpdateToken(root, Array, n.text)], true), n.children[0..])
      == Frame([root.(kind := Array, text := n.text, children := root.children + n.children)], true)
  {
    assert n.children[0..] == n.children;
  }

  /** With a fresh root, parsing the printed form of a well-formed array gives that array back. */
  lemma ParsePrintRoundTrip(n: Node, root: Node)
    requires WellFormed(n) && n.kind == Array
    requires root.children == [] && !root.isDouble
    ensures GeoParser(Print(n), root) == Finished(NoError, n)
  {
    ParsePrinted(n, root);
    assert root.children + n.children == n.children;
  }
}
