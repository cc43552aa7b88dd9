/** A grammar for the template language with its printed form and meaning, and the theorem that `resolve` agrees. */
module TemplateSyntax {
  import opened Templates

  datatype Word = True | False | Null | Undefined

  function WordText(w: Word): string {
    match w case True => "true" case False => "false" case Null => "null" case Undefined => "undefined"
  }

  /** Expressions with their layout: every gap of whitespace and every pair of parentheses is written down. */
  datatype Expr =
    | Constant(word: Word)
    | Number(text: string)
    | Text(quote: char, body: string)
    | Path(head: string, segs: Segs)
    | Not(gap: string, arg: Expr)
    | Equal(left: Expr, before: string, op: Op, after: string, right: Expr)
    | Paren(before: string, inner: Expr, after: string)

  datatype Segs =
    | End
    | Dot(name: string, rest: Segs)
    | At(before: string, key: Expr, after: string, rest: Segs)

  // ----- Printing -----

  function Print(e: Expr): string {
    match e
    case Constant(w) => WordText(w)
    case Number(t) => t
    case Text(q, body) => [q] + body + [q]
    case Path(head, segs) => head + PrintSegs(segs)
    case Not(gap, arg) => "!" + (gap + Print(arg))
    case Equal(l, before, op, after, r) => Print(l) + (before + (OpText(op) + (after + Print(r))))
    case Paren(before, inner, after) => "(" + (before + Print(inner) + after) + ")"
  }

  function PrintSegs(segs: Segs): string {
    match segs
    case End => ""
    case Dot(name, rest) => "." + (name + PrintSegs(rest))
    case At(before, key, after, rest) => "[" + ((before + Print(key) + after) + ("]" + PrintSegs(rest)))
  }

  // ----- The grammar -----

  predicate Special(c: char) {
    Opens(c) || Closes(c) || Marks(c)
  }

  /** No bracket, parenthesis, equals sign or exclamation mark. */
  predicate Plain(s: string) {
    forall i | 0 <= i < |s| :: !Special(s[i])
  }

  predicate IsIdent(s: string) {
    s != "" && IsIdentStart(s[0]) && forall i | 0 <= i < |s| :: IsIdentPart(s[i])
  }

  predicate IsDigits(s: string) {
    s != "" && forall i | 0 <= i < |s| :: IsDigit(s[i])
  }

  predicate IsWord(s: string) {
    s == "true" || s == "false" || s == "null" || s == "undefined"
  }

  /** A quoted text may have brackets that match and marks that make no operator outside them. */
  ghost predicate Quotable(q: char, body: string) {
    (q == '"' || q == '\'') && Balanced(body) && Quiet(body + [q], 0)
  }

  /** Equality needs parentheses on the left of an equality and under a negation, not on the right. */
  ghost predicate WellFormed(e: Expr) {
    match e
    case Constant(_) => true
    case Number(t) => IsNumber(t)
    case Text(q, body) => Quotable(q, body)
    case Path(head, segs) => IsIdent(head) && WellFormedSegs(segs) && (segs.End? ==> !IsWord(head))
    case Not(gap, arg) => Blank(gap) && WellFormed(arg) && !arg.Equal?
    case Equal(l, before, _, after, r) => Blank(before) && Blank(after) && WellFormed(l) && !l.Equal? && WellFormed(r)
    case Paren(before, inner, after) => Blank(before) && WellFormed(inner) && Blank(after)
  }

  ghost predicate WellFormedSegs(segs: Segs) {
    match segs
    case End => true
    case Dot(name, rest) => (IsIdent(name) || IsDigits(name)) && WellFormedSegs(rest)
    case At(before, key, after, rest) => Blank(before) && WellFormed(key) && Blank(after) && WellFormedSegs(rest)
  }

  // ----- Meaning -----

  function WordValue<V>(o: Ops<V>, w: Word): V {
    match w
    case True => o.ofBool(true)
    case False => o.ofBool(false)
    case Null => o.ofNull
    case Undefined => o.undef
  }

  function Eval<V>(o: Ops<V>, vals: V, e: Expr): V {
    match e
    case Constant(w) => WordValue(o, w)
    case Number(t) => o.ofNumber(t)
    case Text(_, body) => o.ofString(body)
    case Path(head, segs) => EvalSegs(o, vals, segs, Member(o, vals, head))
    case Not(_, arg) => o.ofBool(!o.truthy(Eval(o, vals, arg)))
    case Equal(l, _, op, _, r) => Compare(o, op, Eval(o, vals, l), Eval(o, vals, r))
    case Paren(_, inner, _) => Eval(o, vals, inner)
  }

  function EvalSegs<V>(o: Ops<V>, vals: V, segs: Segs, cur: V): V {
    match segs
    case End => cur
    case Dot(name, rest) => EvalSegs(o, vals, rest, Member(o, cur, name))
    case At(_, key, _, rest) =>
      EvalSegs(o, vals, rest, if o.nullish(cur) then o.undef else o.index(cur, Eval(o, vals, key)))
  }

  // ----- Depth of nesting, by kind of bracket -----

  datatype Kind = Round | Square | Either

  function Delta(k: Kind, c: char): int {
    if c == '(' then (if k == Square then 0 else 1)
    else if c == ')' then (if k == Square then 0 else -1)
    else if c == '[' then (if k == Round then 0 else 1)
    else if c == ']' then (if k == Round then 0 else -1)
    else 0
  }

  function Net(k: Kind, s: string): int {
    if s == "" then 0 else Delta(k, s[0]) + Net(k, s[1..])
  }

  /** Starting at depth d, the depth never goes below zero. */
  predicate Safe(k: Kind, s: string, d: int)
    decreases |s|
  {
    d >= 0 && (s != "" ==> Safe(k, s[1..], d + Delta(k, s[0])))
  }

  lemma {:induction false} NetConcat(k: Kind, a: string, b: string)
    ensures Net(k, a + b) == Net(k, a) + Net(k, b)
    decreases |a|
  {
    if a == "" {
      assert a + b == b;
    } else {
      assert (a + b)[1..] == a[1..] + b;
      NetConcat(k, a[1..], b);
    }
  }

  lemma {:induction false} SafeConcat(k: Kind, a: string, b: string, d: int)
    requires Safe(k, a, d) && Safe(k, b, d + Net(k, a))
    ensures Safe(k, a + b, d)
    decreases |a|
  {
    if a == "" {
      assert a + b == b;
    } else {
      assert (a + b)[1..] == a[1..] + b;
      SafeConcat(k, a[1..], b, d + Delta(k, a[0]));
    }
  }

  lemma {:induction false} SafeDeeper(k: Kind, s: string, d: int, d': int)
    requires Safe(k, s, d) && d <= d'
    ensures Safe(k, s, d')
    decreases |s|
  {
    if s != "" {
      SafeDeeper(k, s[1..], d + Delta(k, s[0]), d' + Delta(k, s[0]));
    }
  }

  /** Closed: every kind of bracket is closed in the text, and none that was not opened there. */
  ghost predicate Balanced(s: string) {
    && Net(Round, s) == 0 && Net(Square, s) == 0 && Net(Either, s) == 0
    && Safe(Round, s, 0) && Safe(Square, s, 0) && Safe(Either, s, 0)
  }

  lemma BalancedConcat(a: string, b: string)
    requires Balanced(a) && Balanced(b)
    ensures Balanced(a + b)
  {
    hide Net, Safe;
    NetConcat(Round, a, b);
    NetConcat(Square, a, b);
    NetConcat(Either, a, b);
    SafeConcat(Round, a, b, 0);
    SafeConcat(Square, a, b, 0);
    SafeConcat(Either, a, b, 0);
  }

  lemma {:induction false} LevelText(k: Kind, s: string, d: int)
    requires d >= 0 && forall i | 0 <= i < |s| :: Delta(k, s[i]) == 0
    ensures Net(k, s) == 0 && Safe(k, s, d)
    decreases |s|
  {
    if s != "" {
      LevelText(k, s[1..], d);
    }
  }

  lemma UnbracketedBalanced(s: string)
    requires forall i | 0 <= i < |s| :: !Opens(s[i]) && !Closes(s[i])
    ensures Balanced(s)
  {
    LevelText(Round, s, 0);
    LevelText(Square, s, 0);
    LevelText(Either, s, 0);
  }

  /** Text between a pair of brackets, with the pair. */
  lemma EnclosedBalanced(open: char, s: string, close: char)
    requires (open == '(' && close == ')') || (open == '[' && close == ']')
    requires Balanced(s)
    ensures Balanced([open] + s + [close])
  {
    EnclosedKind(Round, open, s, close);
    EnclosedKind(Square, open, s, close);
    EnclosedKind(Either, open, s, close);
  }

  lemma EnclosedKind(k: Kind, open: char, s: string, close: char)
    requires Delta(k, open) >= 0 && Delta(k, close) == -Delta(k, open) && Net(k, s) == 0 && Safe(k, s, 0)
    ensures Net(k, [open] + s + [close]) == 0 && Safe(k, [open] + s + [close], 0)
  {
    var d := Delta(k, open);
    NetConcat(k, [open] + s, [close]);
    NetConcat(k, [open], s);
    SafeDeeper(k, s, 0, d);
    assert ([open] + s)[1..] == s;
    assert [open] + s != "" && ([open] + s)[0] == open;
    assert Safe(k, [open] + s, 0);
    SafeConcat(k, [open] + s, [close], 0);
  }

  // ----- Text in which no equality can start at depth zero -----

  ghost predicate Quiet(s: string, d: int)
    decreases |s|
  {
    s != "" ==>
      && Quiet(s[1..], d + Delta(Either, s[0]))
      && (d == 0 && Marks(s[0]) ==> s[0] == '!' && |s| > 1 && s[1] != '=')
  }

  lemma {:induction false} QuietConcat(a: string, b: string, d: int)
    requires Quiet(a, d) && Quiet(b, d + Net(Either, a))
    ensures Quiet(a + b, d)
    decreases |a|
  {
    if a == "" {
      assert a + b == b;
    } else {
      assert (a + b)[1..] == a[1..] + b;
      QuietConcat(a[1..], b, d + Delta(Either, a[0]));
    }
  }

  lemma {:induction false} QuietInside(s: string, d: int)
    requires Safe(Either, s, d - 1)
    ensures Quiet(s, d)
    decreases |s|
  {
    if s != "" {
      QuietInside(s[1..], d + Delta(Either, s[0]));
    }
  }

  lemma {:induction false} QuietUnmarked(s: string, d: int)
    requires forall i | 0 <= i < |s| :: !Marks(s[i])
    ensures Quiet(s, d)
    decreases |s|
  {
    if s != "" {
      QuietUnmarked(s[1..], d + Delta(Either, s[0]));
    }
  }

  /** A bracketed group is quiet: its inside is never at depth zero. */
  lemma EnclosedQuiet(open: char, s: string, close: char)
    requires Opens(open) && Closes(close) && Net(Either, s) == 0 && Safe(Either, s, 0)
    ensures Quiet([open] + s + [close], 0)
  {
    QuietInside(s, 1);
    assert ([open] + s)[1..] == s && [open] + s != "" && ([open] + s)[0] == open;
    assert Quiet([open] + s, 0);
    NetConcat(Either, [open], s);
    assert Quiet([close], 1);
    QuietConcat([open] + s, [close], 0);
  }

  // ----- The searches pass over such text -----

  lemma {:induction false} FindPasses(e: string, i: nat, p: string, d: int)
    requires i + |p| <= |e| && e[i..i + |p|] == p && Quiet(p, d)
    ensures FindFrom(e, i, d) == FindFrom(e, i + |p|, d + Net(Either, p))
    decreases |p|
  {
    if p != "" {
      assert e[i] == e[i..i + |p|][0] == p[0];
      assert |p| > 1 ==> e[i + 1] == e[i..i + |p|][1] == p[1];
      assert e[i + 1..i + 1 + |p[1..]|] == p[1..];
      FindPasses(e, i + 1, p[1..], d + Delta(Either, p[0]));
    }
  }

  lemma {:induction false} WrapPasses(e: string, i: nat, p: string, d: int)
    requires i + |p| < |e| && e[i..i + |p|] == p && Safe(Round, p, d - 1)
    ensures WrapFrom(e, i, d) == WrapFrom(e, i + |p|, d + Net(Round, p))
    decreases |p|
  {
    if p != "" {
      assert e[i] == e[i..i + |p|][0] == p[0];
      assert e[i + 1..i + 1 + |p[1..]|] == p[1..];
      WrapPasses(e, i + 1, p[1..], d + Delta(Round, p[0]));
    }
  }

  lemma {:induction false} ClosePasses(e: string, j: nat, p: string, d: nat)
    requires j + |p| <= |e| && e[j..j + |p|] == p && Safe(Square, p, d - 1)
    ensures d + Net(Square, p) >= 1
    ensures CloseFrom(e, j, d) == CloseFrom(e, j + |p|, d + Net(Square, p))
    decreases |p|
  {
    if p != "" {
      assert e[j] == e[j..j + |p|][0] == p[0];
      assert e[j + 1..j + 1 + |p[1..]|] == p[1..];
      assert Safe(Square, p[1..], d - 1 + Delta(Square, p[0]));
      ClosePasses(e, j + 1, p[1..], d + Delta(Square, p[0]));
    }
  }

  // ----- Trimming -----

  lemma {:induction false} TrimLeftGap(gap: string, s: string)
    requires Blank(gap)
    ensures TrimLeft(gap + s) == TrimLeft(s)
    decreases |gap|
  {
    if gap == "" {
      assert gap + s == s;
    } else {
      assert (gap + s)[1..] == gap[1..] + s;
      TrimLeftGap(gap[1..], s);
    }
  }

  lemma {:induction false} TrimRightGap(s: string, gap: string)
    requires Blank(gap)
    ensures TrimRight(s + gap) == TrimRight(s)
    decreases |gap|
  {
    if gap == "" {
      assert s + gap == s;
    } else {
      var n := |gap| - 1;
      assert (s + gap)[..|s + gap| - 1] == s + gap[..n];
      TrimRightGap(s, gap[..n]);
    }
  }

  lemma {:induction false} TrimLeftAppend(s: string, gap: string)
    requires Blank(gap)
    ensures Blank(s) ==> TrimRight(TrimLeft(s + gap)) == "" == Trim(s)
    ensures !Blank(s) ==> TrimLeft(s + gap) == TrimLeft(s) + gap
    decreases |s|
  {
    if s == "" {
      assert s + gap == gap + "";
      TrimLeftGap(gap, "");
    } else {
      assert (s + gap)[1..] == s[1..] + gap;
      TrimLeftAppend(s[1..], gap);
      if IsSpace(s[0]) {
        assert Blank(s) <==> Blank(s[1..]) by {
          assert forall i | 1 <= i < |s| :: s[i] == s[1..][i - 1];
        }
      } else {
        assert !Blank(s);
      }
    }
  }

  /** Whitespace around text does not change its trimmed form. */
  lemma TrimGaps(before: string, s: string, after: string)
    requires Blank(before) && Blank(after)
    ensures Trim(before + s + after) == Trim(s)
  {
    hide IsSpace;
    assert before + s + after == before + (s + after);
    TrimLeftGap(before, s + after);
    TrimLeftAppend(s, after);
    if !Blank(s) {
      TrimRightGap(TrimLeft(s), after);
    }
  }

  lemma TrimSolid(s: string)
    requires s != "" && !IsSpace(s[0]) && !IsSpace(s[|s| - 1])
    ensures Trim(s) == s
  {}

  /** `resolve` never sees outer whitespace. */
  lemma ResolveGaps<V>(o: Ops<V>, vals: V, before: string, s: string, after: string)
    requires Blank(before) && Blank(after)
    ensures Resolve(o, vals, before + s + after) == Resolve(o, vals, s)
  {
    hide Trim, ParensWrapWhole, FindTopLevelEquality, IsNumber, IsString, ResolvePath, Compare, Blank;
    TrimGaps(before, s, after);
  }
}
