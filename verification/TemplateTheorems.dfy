/** Resolving the printed text of an expression gives the expression's meaning. */
module TemplateTheorems {
  import opened Optional
  import opened Templates
  import opened TemplateSyntax

  // ----- The shape of printed text -----

  ghost predicate SolidStart(s: string) {
    s != "" && !IsSpace(s[0]) && s[0] != '='
  }

  ghost predicate SolidEnd(s: string) {
    s != "" && !IsSpace(s[|s| - 1]) && !Marks(s[|s| - 1])
  }

  ghost predicate Shaped(s: string) {
    Balanced(s) && SolidStart(s) && SolidEnd(s)
  }

  lemma PlainShape(s: string)
    requires Plain(s)
    ensures Balanced(s) && Quiet(s, 0)
  {
    UnbracketedBalanced(s);
    QuietUnmarked(s, 0);
  }

  lemma BlankShape(s: string)
    requires Blank(s)
    ensures Balanced(s) && Quiet(s, 0)
  {
    PlainShape(s);
  }

  lemma QuietBalanced(a: string, b: string)
    requires Balanced(a) && Quiet(a, 0) && Balanced(b) && Quiet(b, 0)
    ensures Balanced(a + b) && Quiet(a + b, 0)
  {
    hide Net, Safe, Quiet;
    BalancedConcat(a, b);
    QuietConcat(a, b, 0);
  }

  lemma NumberPlain(t: string)
    requires IsNumber(t)
    ensures Plain(t) && SolidStart(t) && SolidEnd(t) && !IsIdentStart(t[0]) && t[0] != '(' && t[0] != '!'
  {
    var i := if t[0] == '-' then 1 else 0;
    var j := i + DigitsLength(t, i);
    if j < |t| {
      var k := j + 1 + DigitsLength(t, j + 1);
      assert k == |t|;
    }
    assert IsDigit(t[i]);
  }

  lemma GapsShape(before: string, s: string, after: string)
    requires Blank(before) && Balanced(s) && Blank(after)
    ensures Balanced(before + s + after)
  {
    hide Balanced;
    BlankShape(before);
    BlankShape(after);
    BalancedConcat(before, s);
    BalancedConcat(before + s, after);
  }

  lemma OpShape(op: Op)
    ensures Balanced(OpText(op))
  {
    UnbracketedBalanced(OpText(op));
  }

  lemma IdentPlain(s: string)
    requires IsIdent(s) || IsDigits(s)
    ensures Plain(s) && SolidStart(s) && SolidEnd(s)
  {
    var last := s[|s| - 1];
    assert IsIdentPart(last) && IsIdentPart(s[0]);
  }

  lemma {:induction false} PrintShape(e: Expr)
    requires WellFormed(e)
    ensures Shaped(Print(e)) && (!e.Equal? ==> Quiet(Print(e), 0))
    decreases e
  {
    hide Balanced, Quiet, Net, Safe, IsSpace, Blank, Plain, IsNumber, IsIdent, Opens, Closes;
    match e
    case Constant(w) =>
      WordShape(w);
    case Number(t) =>
      NumberPlain(t);
      PlainShape(t);
    case Text(q, body) =>
      QuotedShape(q, body);
    case Path(head, segs) =>
      IdentPlain(head);
      PlainShape(head);
      SegsShape(segs);
      QuietBalanced(head, PrintSegs(segs));
    case Not(gap, arg) =>
      PrintShape(arg);
      NotShape(gap, Print(arg));
    case Equal(l, before, op, after, r) =>
      PrintShape(l);
      PrintShape(r);
      EqualShape(Print(l), before, op, after, Print(r));
    case Paren(before, inner, after) =>
      PrintShape(inner);
      GapsShape(before, Print(inner), after);
      ParenShape('(', before + Print(inner) + after, ')');
  }

  lemma {:induction false} SegsShape(segs: Segs)
    requires WellFormedSegs(segs)
    ensures Balanced(PrintSegs(segs)) && Quiet(PrintSegs(segs), 0)
    ensures !segs.End? ==> SolidEnd(PrintSegs(segs)) && (PrintSegs(segs)[0] == '.' || PrintSegs(segs)[0] == '[')
    decreases segs
  {
    hide Balanced, Quiet, IsSpace, Blank, Plain, IsIdent, IsDigits, SolidEnd;
    match segs
    case End =>
      EmptyShape();
    case Dot(name, rest) =>
      SegsShape(rest);
      DotSegShape(name, PrintSegs(rest));
    case At(before, key, after, rest) =>
      PrintShape(key);
      GapsShape(before, Print(key), after);
      SegsShape(rest);
      AtSegShape(before + Print(key) + after, PrintSegs(rest));
  }

  lemma DotSegShape(name: string, rest: string)
    requires IsIdent(name) || IsDigits(name)
    requires Balanced(rest) && Quiet(rest, 0) && (rest != "" ==> SolidEnd(rest))
    ensures var s := "." + (name + rest); Balanced(s) && Quiet(s, 0) && SolidEnd(s)
  {
    hide Balanced, Quiet, IsSpace, Plain, IsIdent, IsDigits;
    IdentPlain(name);
    PlainShape(name);
    QuietBalanced(name, rest);
    DotShape();
    QuietBalanced(".", name + rest);
  }

  lemma AtSegShape(key: string, rest: string)
    requires Balanced(key) && Balanced(rest) && Quiet(rest, 0) && (rest != "" ==> SolidEnd(rest))
    ensures var s := "[" + (key + ("]" + rest)); Balanced(s) && Quiet(s, 0) && SolidEnd(s)
  {
    hide Balanced, Quiet, IsSpace;
    ParenShape('[', key, ']');
    QuietBalanced("[" + key + "]", rest);
    assert "[" + (key + ("]" + rest)) == ("[" + key + "]") + rest;
  }

  lemma EmptyShape()
    ensures Balanced("") && Quiet("", 0)
  {}

  lemma DotShape()
    ensures Balanced(".") && Quiet(".", 0)
  {
    PlainShape(".");
  }

  lemma WordShape(w: Word)
    ensures Shaped(WordText(w)) && Quiet(WordText(w), 0)
  {
    PlainShape(WordText(w));
  }

  lemma QuotedShape(q: char, body: string)
    requires Quotable(q, body)
    ensures Shaped([q] + body + [q]) && Quiet([q] + body + [q], 0)
  {
    hide Balanced, Quiet, Net;
    PlainShape([q]);
    BalancedConcat(body, [q]);
    QuietBalanced([q], body + [q]);
    assert [q] + body + [q] == [q] + (body + [q]);
  }

  /** Text with no bracket and no mark is one case of it, and so are these. */
  lemma QuotableExamples(q: char, body: string)
    requires q == '"' || q == '\''
    ensures Plain(body) ==> Quotable(q, body)
    ensures Quotable(q, "Hello!") && Quotable(q, "a (b)")
  {
    hide Balanced, Quiet, Net, Safe;
    PlainShape([q]);
    if Plain(body) {
      PlainShape(body);
      QuietBalanced(body, [q]);
    }
    HelloShape(q);
    PlainShape("a ");
    PlainShape("b");
    ParenShape('(', "b", ')');
    assert "a (b)" == "a " + (['('] + "b" + [')']);
    QuietBalanced("a ", ['('] + "b" + [')']);
    QuietBalanced("a (b)", [q]);
  }

  lemma HelloShape(q: char)
    requires q == '"' || q == '\''
    ensures Balanced("Hello!") && Quiet("Hello!" + [q], 0)
  {
    hide Balanced, Net, Safe;
    UnbracketedBalanced("Hello!");
    PlainShape("Hello");
    UnbracketedBalanced("Hello");
    assert ['!', q][1..] == [q] && [q][1..] == "";
    assert Quiet(['!', q], 0);
    HelloLevel();
    QuietConcat("Hello", ['!', q], 0);
    assert "Hello!" + [q] == "Hello" + ['!', q];
  }

  lemma HelloLevel()
    ensures Net(Either, "Hello") == 0
  {
    LevelText(Either, "Hello", 0);
  }

  lemma NotShape(gap: string, p: string)
    requires Blank(gap) && Shaped(p) && Quiet(p, 0)
    ensures Shaped("!" + (gap + p)) && Quiet("!" + (gap + p), 0)
  {
    hide Balanced, Net, Safe;
    BlankShape(gap);
    QuietBalanced(gap, p);
    UnbracketedBalanced("!");
    BalancedConcat("!", gap + p);
    assert ("!" + (gap + p))[1..] == gap + p;
  }

  lemma EqualShape(l: string, before: string, op: Op, after: string, r: string)
    requires Shaped(l) && Shaped(r) && Blank(before) && Blank(after)
    ensures Shaped(l + (before + (OpText(op) + (after + r))))
  {
    hide Balanced, IsSpace, Blank;
    BlankShape(before);
    BlankShape(after);
    OpShape(op);
    BalancedConcat(after, r);
    BalancedConcat(OpText(op), after + r);
    BalancedConcat(before, OpText(op) + (after + r));
    BalancedConcat(l, before + (OpText(op) + (after + r)));
  }

  lemma ParenShape(open: char, s: string, close: char)
    requires (open == '(' && close == ')') || (open == '[' && close == ']')
    requires Balanced(s)
    ensures Shaped([open] + s + [close]) && Quiet([open] + s + [close], 0)
  {
    hide Net, Safe, Quiet;
    EnclosedBalanced(open, s, close);
    EnclosedQuiet(open, s, close);
  }

  // ----- The searches on printed text -----

  lemma NoEquality(p: string)
    requires Quiet(p, 0)
    ensures FindTopLevelEquality(p) == None
  {
    FindPasses(p, 0, p, 0);
  }

  /** Parentheses around text wrap the whole exactly when the text closes none but its own. */
  lemma WrapIffSafe(s: string)
    ensures ParensWrapWhole("(" + s + ")") <==> Safe(Round, s, 0)
  {
    WrapInside("(" + s + ")", 1, s, 1);
  }

  lemma {:induction false} WrapInside(e: string, i: nat, p: string, d: int)
    requires i + |p| + 1 == |e| && e[i..i + |p|] == p && d >= 1
    ensures WrapFrom(e, i, d) <==> Safe(Round, p, d - 1)
    decreases |p|
  {
    if p != "" {
      assert e[i] == e[i..i + |p|][0] == p[0];
      assert e[i + 1..i + 1 + |p[1..]|] == p[1..];
      if d + Delta(Round, p[0]) >= 1 {
        WrapInside(e, i + 1, p[1..], d + Delta(Round, p[0]));
      }
    }
  }

  /** A group followed by more text does not wrap the whole. */
  lemma GroupDoesNotWrap(s: string, rest: string)
    requires Safe(Round, s, 0) && Net(Round, s) == 0 && rest != ""
    ensures !ParensWrapWhole("(" + s + ")" + rest)
  {
    var e := "(" + s + ")" + rest;
    assert e[1..1 + |s|] == s;
    WrapPasses(e, 1, s, 1);
    assert e[1 + |s|] == ')';
  }

  lemma OperatorAt(p: string, op: Op, tail: string)
    requires p != "" && Trim(p) != "" && !Marks(p[|p| - 1]) && SolidTail(tail)
    ensures |p| < |p + (OpText(op) + tail)|
    ensures EqualityAt(p + (OpText(op) + tail), |p|) && FoundAt(p + (OpText(op) + tail), |p|) == Found(|p|, op)
    ensures !Opens((p + (OpText(op) + tail))[|p|]) && !Closes((p + (OpText(op) + tail))[|p|])
  {
    hide Trim;
    var e := p + (OpText(op) + tail);
    var i := |p|;
    assert e[..i] == p && e[i - 1] == p[i - 1];
    assert e[i] == OpText(op)[0] && e[i + 1] == OpText(op)[1];
    assert e[i + 2] == (if |OpText(op)| == 3 then '=' else tail[0]);
  }

  lemma FindStops(e: string, i: nat)
    requires i < |e| && EqualityAt(e, i) && !Opens(e[i]) && !Closes(e[i])
    ensures FindFrom(e, i, 0) == Some(FoundAt(e, i))
  {
    hide EqualityAt;
  }

  lemma TrimAfter(s: string, gap: string)
    requires Blank(gap)
    ensures Trim(s + gap) == Trim(s)
  {
    hide IsSpace, Trim;
    TrimGaps("", s, gap);
    assert "" + s + gap == s + gap;
  }

  lemma ResolveBefore<V>(o: Ops<V>, vals: V, s: string, gap: string)
    requires Blank(gap)
    ensures Resolve(o, vals, s + gap) == Resolve(o, vals, s)
  {
    hide IsSpace, Resolve;
    ResolveGaps(o, vals, "", s, gap);
    assert "" + s + gap == s + gap;
  }

  lemma ResolveAfter<V>(o: Ops<V>, vals: V, gap: string, s: string)
    requires Blank(gap)
    ensures Resolve(o, vals, gap + s) == Resolve(o, vals, s)
  {
    hide IsSpace, Resolve;
    ResolveGaps(o, vals, gap, s, "");
    assert gap + s + "" == gap + s;
  }

  lemma LeftOfOperator(l: string, before: string)
    requires Shaped(l) && Quiet(l, 0) && Blank(before)
    ensures Quiet(l + before, 0) && Net(Either, l + before) == 0
    ensures l + before != "" && Trim(l + before) != "" && !Marks((l + before)[|l + before| - 1])
  {
    hide Net, Safe, Quiet, Balanced, IsSpace, Blank, Trim;
    BlankShape(before);
    QuietBalanced(l, before);
    BalancedNet(l + before);
    NotMarked(l, before);
    TrimAfter(l, before);
    TrimSolid(l);
  }

  lemma FindsOperator(p: string, op: Op, tail: string)
    requires Quiet(p, 0) && Net(Either, p) == 0
    requires p != "" && Trim(p) != "" && !Marks(p[|p| - 1]) && SolidTail(tail)
    ensures FindTopLevelEquality(p + (OpText(op) + tail)) == Some(Found(|p|, op))
  {
    hide Net, Quiet, EqualityAt, FoundAt, Trim, SolidTail, OpText, FindFrom;
    var e := p + (OpText(op) + tail);
    assert e[0..|p|] == p;
    FindPasses(e, 0, p, 0);
    OperatorAt(p, op, tail);
    FindStops(e, |p|);
  }

  /** What may follow an operator: never another equals sign. */
  ghost predicate SolidTail(s: string) {
    s != "" && s[0] != '='
  }

  lemma BalancedNet(s: string)
    requires Balanced(s)
    ensures Net(Either, s) == 0 && Net(Round, s) == 0 && Net(Square, s) == 0 && Safe(Round, s, 0) && Safe(Square, s, 0)
  {}

  lemma NotMarked(l: string, gap: string)
    requires SolidEnd(l) && Blank(gap)
    ensures l + gap != "" && !Marks((l + gap)[|l + gap| - 1])
  {}

  lemma TailSolid(gap: string, p: string)
    requires Blank(gap) && Shaped(p)
    ensures SolidTail(gap + p)
  {}

  // ----- Resolution by the form of the text -----

  ghost predicate Wrapped(e: string) {
    e != "" && e[0] == '(' && e[|e| - 1] == ')' && ParensWrapWhole(e)
  }

  lemma ResolveWrapped<V>(o: Ops<V>, vals: V, e: string)
    requires Trim(e) == e && Wrapped(e)
    ensures |e| >= 2 && Resolve(o, vals, e) == Resolve(o, vals, e[1..|e| - 1])
  {
    hide Trim, ParensWrapWhole, FindTopLevelEquality, IsNumber, IsString, ResolvePath, Compare;
  }

  lemma ResolveEquality<V>(o: Ops<V>, vals: V, e: string, i: nat, op: Op)
    requires Trim(e) == e != "" && !Wrapped(e) && FindTopLevelEquality(e) == Some(Found(i, op))
    ensures i + |OpText(op)| <= |e|
    ensures Resolve(o, vals, e) == Compare(o, op, Resolve(o, vals, e[..i]), Resolve(o, vals, e[i + |OpText(op)|..]))
  {
    hide Trim, ParensWrapWhole, IsNumber, IsString, ResolvePath, Compare, FindFrom;
  }

  /** What is left once parentheses and equalities are ruled out. */
  ghost function ResolveAtom<V>(o: Ops<V>, vals: V, e: string): V
    requires e != ""
  {
    if e[0] == '!' then o.ofBool(!o.truthy(Resolve(o, vals, e[1..])))
    else if e == "true" then o.ofBool(true)
    else if e == "false" then o.ofBool(false)
    else if e == "null" then o.ofNull
    else if e == "undefined" then o.undef
    else if IsNumber(e) then o.ofNumber(e)
    else if IsString(e) then o.ofString(e[1..|e| - 1])
    else ResolvePath(o, vals, e)
  }

  lemma AtomResolves<V>(o: Ops<V>, vals: V, e: string)
    requires Trim(e) == e != "" && !Wrapped(e) && FindTopLevelEquality(e) == None
    ensures Resolve(o, vals, e) == ResolveAtom(o, vals, e)
  {
    hide Trim, ParensWrapWhole, FindTopLevelEquality, IsNumber, IsString, ResolvePath, Compare;
  }

  // ----- Identifiers -----

  lemma {:induction false} PartsAre(e: string, i: nat, n: nat)
    requires i + n <= |e| && forall k | i <= k < i + n :: IsIdentPart(e[k])
    requires i + n < |e| ==> !IsIdentPart(e[i + n])
    ensures PartsLength(e, i) == n
    decreases n
  {
    if n > 0 {
      PartsAre(e, i + 1, n - 1);
    }
  }

  lemma {:induction false} DigitsAre(e: string, i: nat, n: nat)
    requires i + n <= |e| && forall k | i <= k < i + n :: IsDigit(e[k])
    requires i + n < |e| ==> !IsDigit(e[i + n])
    ensures DigitsLength(e, i) == n
    decreases n
  {
    if n > 0 {
      DigitsAre(e, i + 1, n - 1);
    }
  }

  /** A name followed by nothing, a dot or a bracket is read whole. */
  lemma NameRead(pre: string, name: string, rest: string)
    requires IsIdent(name) || IsDigits(name)
    requires rest == "" || !IsIdentPart(rest[0])
    ensures NameLength(pre + (name + rest), |pre|) == |name|
    ensures IsIdent(name) ==> IdentLength(pre + (name + rest), |pre|) == |name|
    ensures (pre + (name + rest))[|pre|..|pre| + |name|] == name
  {
    var e := pre + (name + rest);
    var i := |pre|;
    assert forall k | 0 <= k < |name| :: e[i + k] == name[k];
    assert forall k | i <= k < i + |name| :: e[k] == name[k - i];
    if i + |name| < |e| {
      assert e[i + |name|] == rest[0];
    }
    assert e[i] == name[0];
    if IsIdent(name) {
      PartsAre(e, i + 1, |name| - 1);
    } else {
      DigitsAre(e, i, |name|);
    }
  }

  // ----- The theorem -----

  lemma PrintTrimmed(e: Expr)
    requires WellFormed(e)
    ensures Trim(Print(e)) == Print(e) != "" && Shaped(Print(e)) && (!e.Equal? ==> Quiet(Print(e), 0))
  {
    hide Balanced, Quiet, IsSpace, Print, WellFormed;
    PrintShape(e);
    TrimSolid(Print(e));
  }

  /** Printed text that starts with a parenthesis is a group, or an equality that starts with one. */
  lemma StartsWithParen(e: Expr)
    requires WellFormed(e) && !e.Equal? && !e.Paren?
    ensures Print(e) != "" && Print(e)[0] != '('
  {
    match e
    case Number(t) => NumberPlain(t);
    case _ =>
  }

  /** Printer/parser: the text of every expression of the grammar resolves to the expression's value. */
  lemma {:induction false} ResolvePrint<V>(o: Ops<V>, vals: V, e: Expr)
    requires WellFormed(e)
    ensures Resolve(o, vals, Print(e)) == Eval(o, vals, e)
    decreases e
  {
    hide Resolve, Shaped, Quiet, Trim, Blank, IsNumber, IsIdent, IsSpace, ResolveAtom;
    PrintTrimmed(e);
    match e
    case Constant(w) =>
      NoEquality(Print(e));
      StartsWithParen(e);
      AtomResolves(o, vals, Print(e));
      AtomConstant(o, vals, w);
    case Number(t) =>
      NoEquality(Print(e));
      StartsWithParen(e);
      AtomResolves(o, vals, Print(e));
      AtomNumber(o, vals, t);
    case Text(q, body) =>
      NoEquality(Print(e));
      StartsWithParen(e);
      AtomResolves(o, vals, Print(e));
      AtomText(o, vals, q, body);
    case Path(head, segs) =>
      NoEquality(Print(e));
      StartsWithParen(e);
      AtomResolves(o, vals, Print(e));
      AtomPath(o, vals, head, segs);
      ResolveSegs(o, vals, head, segs, Member(o, vals, head));
    case Not(gap, arg) =>
      NoEquality(Print(e));
      StartsWithParen(e);
      AtomResolves(o, vals, Print(e));
      AtomNot(o, vals, gap + Print(arg));
      ResolveAfter(o, vals, gap, Print(arg));
      ResolvePrint(o, vals, arg);
    case Equal(l, before, op, after, r) =>
      EqualSplits(o, vals, l, before, op, after, r);
      ResolvePrint(o, vals, l);
      ResolvePrint(o, vals, r);
    case Paren(before, inner, after) =>
      ParenOpens(o, vals, before, inner, after);
      ResolvePrint(o, vals, inner);
  }

  lemma AtomConstant<V>(o: Ops<V>, vals: V, w: Word)
    ensures ResolveAtom(o, vals, WordText(w)) == WordValue(o, w)
  {
    hide IsNumber, IsString, ResolvePath, Resolve;
  }

  lemma AtomNumber<V>(o: Ops<V>, vals: V, t: string)
    requires IsNumber(t)
    ensures t != "" && ResolveAtom(o, vals, t) == o.ofNumber(t)
  {
    hide IsString, ResolvePath, Resolve, IsNumber;
    NumberPlain(t);
  }

  lemma QuoteIsNotNumber(t: string)
    requires t != "" && !IsDigit(t[0]) && t[0] != '-'
    ensures !IsNumber(t)
  {}

  lemma AtomText<V>(o: Ops<V>, vals: V, q: char, body: string)
    requires q == '"' || q == '\''
    ensures ResolveAtom(o, vals, [q] + body + [q]) == o.ofString(body)
  {
    hide ResolvePath, Resolve, IsNumber;
    var t := [q] + body + [q];
    QuoteIsNotNumber(t);
    assert t[1..|t| - 1] == body;
  }

  lemma AtomNot<V>(o: Ops<V>, vals: V, rest: string)
    ensures ResolveAtom(o, vals, "!" + rest) == o.ofBool(!o.truthy(Resolve(o, vals, rest)))
  {
    hide ResolvePath, Resolve, IsNumber;
    assert ("!" + rest)[1..] == rest;
  }

  lemma SegsStart(segs: Segs)
    ensures PrintSegs(segs) == "" <==> segs.End?
    ensures PrintSegs(segs) == "" || PrintSegs(segs)[0] == '.' || PrintSegs(segs)[0] == '['
  {}

  lemma WordsHaveNoMarks(w: string, i: nat)
    requires i < |w| && (w[i] == '.' || w[i] == '[')
    ensures !IsWord(w)
  {}

  lemma NotAWord(head: string, segs: Segs)
    requires segs.End? ==> !IsWord(head)
    ensures !IsWord(head + PrintSegs(segs))
  {
    hide IsWord, PrintSegs;
    SegsStart(segs);
    if segs.End? {
      assert head + PrintSegs(segs) == head;
    } else {
      WordsHaveNoMarks(head + PrintSegs(segs), |head|);
    }
  }

  lemma AtomPath<V>(o: Ops<V>, vals: V, head: string, segs: Segs)
    requires IsIdent(head) && WellFormedSegs(segs) && (segs.End? ==> !IsWord(head))
    ensures head != "" && head + PrintSegs(segs) != ""
    ensures ResolveAtom(o, vals, head + PrintSegs(segs))
         == PathFrom(o, vals, head + PrintSegs(segs), |head|, Member(o, vals, head))
  {
    hide PathFrom, Resolve, IsNumber, Member, WellFormedSegs, PrintSegs;
    var t := head + PrintSegs(segs);
    NotAWord(head, segs);
    SegsStart(segs);
    NameRead("", head, PrintSegs(segs));
    assert "" + (head + PrintSegs(segs)) == t;
    assert t[0] == head[0];
    QuoteIsNotNumber(t);
  }

  /** The segments of a path, read from where they start in the text. */
  lemma {:induction false} ResolveSegs<V>(o: Ops<V>, vals: V, pre: string, segs: Segs, cur: V)
    requires pre != "" && WellFormedSegs(segs)
    ensures PathFrom(o, vals, pre + PrintSegs(segs), |pre|, cur) == EvalSegs(o, vals, segs, cur)
    decreases segs
  {
    hide Resolve, Balanced, Quiet, Trim, Blank, IsIdent, IsDigits, IsSpace, PathFrom, Member, NameLength;
    match segs
    case End =>
      PathEnds(o, vals, pre, cur);
    case Dot(name, rest) =>
      SegsStart(rest);
      PathDot(o, vals, pre, name, PrintSegs(rest), cur);
      ResolveSegs(o, vals, pre + "." + name, rest, Member(o, cur, name));
    case At(before, key, after, rest) =>
      PrintTrimmed(key);
      var s := before + Print(key) + after;
      GapsShape(before, Print(key), after);
      PathAt(o, vals, pre, s, PrintSegs(rest), cur);
      ResolveGaps(o, vals, before, Print(key), after);
      ResolvePrint(o, vals, key);
      ResolveSegs(o, vals, pre + "[" + s + "]", rest,
                  if o.nullish(cur) then o.undef else o.index(cur, Eval(o, vals, key)));
  }

  lemma PathEnds<V>(o: Ops<V>, vals: V, pre: string, cur: V)
    requires pre != ""
    ensures PathFrom(o, vals, pre + "", |pre|, cur) == cur
  {}

  lemma PathFromDot<V>(o: Ops<V>, vals: V, e: string, i: nat, m: nat, cur: V)
    requires 0 < i < |e| && e[i] == '.' && m > 0 && NameLength(e, i + 1) == m
    ensures PathFrom(o, vals, e, i, cur) == PathFrom(o, vals, e, i + 1 + m, Member(o, cur, e[i + 1..i + 1 + m]))
  {
    hide Member, NameLength, Resolve, CloseFrom;
  }

  lemma PathFromAt<V>(o: Ops<V>, vals: V, e: string, i: nat, j: nat, cur: V)
    requires 0 < i < |e| && e[i] == '[' && CloseFrom(e, i + 1, 1) == Some(j)
    ensures i < j < |e|
    ensures PathFrom(o, vals, e, i, cur)
         == PathFrom(o, vals, e, j + 1, if o.nullish(cur) then o.undef else o.index(cur, Resolve(o, vals, e[i + 1..j])))
  {
    hide Member, NameLength, Resolve, CloseFrom;
  }

  lemma PathDot<V>(o: Ops<V>, vals: V, pre: string, name: string, rest: string, cur: V)
    requires pre != "" && (IsIdent(name) || IsDigits(name)) && (rest == "" || !IsIdentPart(rest[0]))
    ensures pre + ("." + (name + rest)) == pre + "." + name + rest
    ensures PathFrom(o, vals, pre + ("." + (name + rest)), |pre|, cur)
         == PathFrom(o, vals, pre + "." + name + rest, |pre + "." + name|, Member(o, cur, name))
  {
    hide Member, NameLength, Resolve, PathFrom, IsIdentPart, IsIdentStart, IsDigit;
    var e := pre + ("." + (name + rest));
    NameRead(pre + ".", name, rest);
    assert (pre + ".") + (name + rest) == e;
    assert e == pre + "." + name + rest;
    PathFromDot(o, vals, e, |pre|, |name|, cur);
  }

  lemma PathAt<V>(o: Ops<V>, vals: V, pre: string, s: string, rest: string, cur: V)
    requires pre != "" && Balanced(s)
    ensures pre + ("[" + (s + ("]" + rest))) == pre + "[" + s + "]" + rest
    ensures PathFrom(o, vals, pre + ("[" + (s + ("]" + rest))), |pre|, cur)
         == PathFrom(o, vals, pre + "[" + s + "]" + rest, |pre + "[" + s + "]"|,
                     if o.nullish(cur) then o.undef else o.index(cur, Resolve(o, vals, s)))
  {
    hide Member, NameLength, Resolve, Net, Safe, PathFrom, Balanced;
    var e := pre + ("[" + (s + ("]" + rest)));
    assert e == pre + "[" + s + "]" + rest;
    var i := |pre| + 1;
    assert e[|pre|] == '[' && e[i..i + |s|] == s && e[i + |s|] == ']';
    BalancedNet(s);
    ClosePasses(e, i, s, 1);
    PathFromAt(o, vals, e, |pre|, i + |s|, cur);
  }

  lemma EqualSplits<V>(o: Ops<V>, vals: V, l: Expr, before: string, op: Op, after: string, r: Expr)
    requires WellFormed(Equal(l, before, op, after, r))
    requires Trim(Print(Equal(l, before, op, after, r))) == Print(Equal(l, before, op, after, r))
    ensures Resolve(o, vals, Print(Equal(l, before, op, after, r)))
         == Compare(o, op, Resolve(o, vals, Print(l)), Resolve(o, vals, Print(r)))
  {
    hide Resolve, Quiet, Shaped, Trim, Blank, OpText, FindTopLevelEquality, Wrapped, Net, Compare, SolidTail;
    var e := Print(Equal(l, before, op, after, r));
    var p, tail := Print(l) + before, after + Print(r);
    assert e == p + (OpText(op) + tail);
    PrintTrimmed(l);
    PrintTrimmed(r);
    LeftOfOperator(Print(l), before);
    TailSolid(after, Print(r));
    FindsOperator(p, op, tail);
    EqualNotWrapped(l, before + (OpText(op) + tail));
    ResolveEquality(o, vals, e, |p|, op);
    assert e[..|p|] == p && e[|p| + |OpText(op)|..] == tail;
    ResolveBefore(o, vals, Print(l), before);
    ResolveAfter(o, vals, after, Print(r));
  }

  lemma EqualNotWrapped(l: Expr, rest: string)
    requires WellFormed(l) && !l.Equal? && rest != ""
    ensures !Wrapped(Print(l) + rest)
  {
    hide ParensWrapWhole, Balanced, Net, Safe, Blank, WellFormedSegs, IsNumber;
    if l.Paren? {
      var s := l.before + Print(l.inner) + l.after;
      PrintShape(l.inner);
      GapsShape(l.before, Print(l.inner), l.after);
      BalancedNet(s);
      GroupDoesNotWrap(s, rest);
    } else {
      StartsWithParen(l);
    }
  }

  lemma ParenOpens<V>(o: Ops<V>, vals: V, before: string, inner: Expr, after: string)
    requires WellFormed(Paren(before, inner, after))
    requires Trim(Print(Paren(before, inner, after))) == Print(Paren(before, inner, after))
    ensures Resolve(o, vals, Print(Paren(before, inner, after))) == Resolve(o, vals, Print(inner))
  {
    hide Resolve, Quiet, Balanced, Trim, Blank, IsSpace, ParensWrapWhole, Net, Safe;
    var s := before + Print(inner) + after;
    var e := "(" + s + ")";
    PrintShape(inner);
    GapsShape(before, Print(inner), after);
    BalancedNet(s);
    WrapIffSafe(s);
    ResolveWrapped(o, vals, e);
    assert e[1..|e| - 1] == s;
    ResolveGaps(o, vals, before, Print(inner), after);
  }

  // ----- Laws for any text -----

  /** Outer parentheses never change the result of text whose own parentheses are never closed too early. */
  lemma ResolveParens<V>(o: Ops<V>, vals: V, s: string)
    requires Safe(Round, s, 0)
    ensures Resolve(o, vals, "(" + s + ")") == Resolve(o, vals, s)
  {
    hide Resolve, Trim, ParensWrapWhole, Safe;
    var e := "(" + s + ")";
    WrapIffSafe(s);
    TrimSolid(e);
    ResolveWrapped(o, vals, e);
    assert e[1..|e| - 1] == s;
  }

  /** A text literal alone means its body exactly when no equality operator is found inside it. */
  lemma LiteralIff<V>(o: Ops<V>, vals: V, q: char, body: string)
    requires q == '"' || q == '\''
    requires forall b, s :: o.ofBool(b) != o.ofString(s)
    ensures Resolve(o, vals, [q] + body + [q]) == o.ofString(body)
       <==> FindTopLevelEquality([q] + body + [q]) == None
  {
    hide Resolve, Trim, ParensWrapWhole, FindTopLevelEquality, ResolveAtom;
    var e := [q] + body + [q];
    TrimSolid(e);
    match FindTopLevelEquality(e)
    case None =>
      AtomResolves(o, vals, e);
      AtomText(o, vals, q, body);
    case Some(f) =>
      ResolveEquality(o, vals, e, f.index, f.op);
      var b := CompareIsBool(o, f.op, Resolve(o, vals, e[..f.index]), Resolve(o, vals, e[f.index + |OpText(f.op)|..]));
      assert o.ofBool(b) != o.ofString(body);
  }

  lemma CompareIsBool<V>(o: Ops<V>, op: Op, l: V, r: V) returns (b: bool)
    ensures Compare(o, op, l, r) == o.ofBool(b)
  {
    var strict, loose := o.strictEq(l, r), o.looseEq(l, r);
    b := match op case StrictEq => strict case StrictNe => !strict case LooseEq => loose case LooseNe => !loose;
  }

  /** One that does not: the quotes do not protect the operator, and two broken halves are compared. */
  lemma LiteralBroken<V>(o: Ops<V>, vals: V)
    ensures Resolve(o, vals, "'a==b'") == o.ofBool(o.looseEq(o.undef, o.undef))
  {
    hide Resolve, PathFrom;
    BrokenSplits();
    TrimSolid("'a==b'");
    ResolveEquality(o, vals, "'a==b'", 2, LooseEq);
    assert "'a==b'"[..2] == "'a" && "'a==b'"[4..] == "b'";
    BrokenLeft(o, vals);
    BrokenRight(o, vals);
  }

  lemma BrokenSplits()
    ensures FindTopLevelEquality("'a==b'") == Some(Found(2, LooseEq))
  {
    var e := "'a==b'";
    assert e[..2] == "'a";
    TrimSolid("'a");
    assert FindFrom(e, 2, 0) == Some(FoundAt(e, 2));
    assert FindFrom(e, 1, 0) == FindFrom(e, 2, 0);
    assert FindFrom(e, 0, 0) == FindFrom(e, 1, 0);
  }

  lemma BrokenLeft<V>(o: Ops<V>, vals: V)
    ensures Resolve(o, vals, "'a") == o.undef
  {
    hide Resolve, PathFrom;
    TrimSolid("'a");
    QuietUnmarked("'a", 0);
    NoEquality("'a");
    AtomResolves(o, vals, "'a");
    QuoteIsNotNumber("'a");
  }

  lemma BrokenRight<V>(o: Ops<V>, vals: V)
    ensures Resolve(o, vals, "b'") == o.undef
  {
    hide Resolve;
    TrimSolid("b'");
    QuietUnmarked("b'", 0);
    NoEquality("b'");
    AtomResolves(o, vals, "b'");
    QuoteIsNotNumber("b'");
    PartsAre("b'", 1, 0);
  }
}
