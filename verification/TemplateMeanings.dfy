/** What each form of the template language means, stated on the resolved text and the operators alone. */
module TemplateMeanings {
  import opened Optional
  import opened Templates
  import opened TemplateSyntax
  import opened TemplateTheorems

  // ----- Regrouping text -----

  lemma Regroup3(a: string, b: string, c: string, d: string, e: string)
    ensures a + (b + (c + d)) + e == a + (b + (c + (d + e)))
    ensures a + (b + (c + d)) + e == (a + b + c) + d + e == (a + b + c) + (d + e)
    ensures a + (b + (c + d)) == (a + b + c) + d
    ensures (b + (c + d)) + e == b + (c + (d + e))
  {}

  lemma Regroup4(a: string, b: string, c: string, d: string, e: string, f: string)
    ensures a + (b + (c + (d + e))) + f == a + (b + (c + (d + (e + f))))
    ensures a + (b + (c + (d + e))) + f == (a + b + c + d) + e + f == (a + b + c + d) + (e + f)
    ensures a + (b + (c + (d + e))) == (a + b + c + d) + e
    ensures (b + (c + (d + e))) + f == b + (c + (d + (e + f)))
  {}

  lemma Regroup5(a: string, b: string, c: string, d: string, e: string)
    ensures a + (b + (c + (d + e))) == a + b + c + d + e
  {}

  // ----- Equalities and negation -----

  /** Each of the four equalities compares what its two sides resolve to. */
  lemma EqualityMeans<V>(o: Ops<V>, vals: V, l: Expr, before: string, after: string, r: Expr)
    requires WellFormed(l) && !l.Equal? && WellFormed(r) && Blank(before) && Blank(after)
    ensures var a, b := Resolve(o, vals, Print(l)), Resolve(o, vals, Print(r));
            && Resolve(o, vals, Print(l) + before + "===" + after + Print(r)) == o.ofBool(o.strictEq(a, b))
            && Resolve(o, vals, Print(l) + before + "!==" + after + Print(r)) == o.ofBool(!o.strictEq(a, b))
            && Resolve(o, vals, Print(l) + before + "==" + after + Print(r)) == o.ofBool(o.looseEq(a, b))
            && Resolve(o, vals, Print(l) + before + "!=" + after + Print(r)) == o.ofBool(!o.looseEq(a, b))
  {
    hide Resolve, Print, WellFormed, Blank;
    OperatorMeans(o, vals, l, before, StrictEq, after, r);
    OperatorMeans(o, vals, l, before, StrictNe, after, r);
    OperatorMeans(o, vals, l, before, LooseEq, after, r);
    OperatorMeans(o, vals, l, before, LooseNe, after, r);
  }

  lemma OperatorMeans<V>(o: Ops<V>, vals: V, l: Expr, before: string, op: Op, after: string, r: Expr)
    requires WellFormed(l) && !l.Equal? && WellFormed(r) && Blank(before) && Blank(after)
    ensures Resolve(o, vals, Print(l) + before + OpText(op) + after + Print(r))
         == Compare(o, op, Resolve(o, vals, Print(l)), Resolve(o, vals, Print(r)))
  {
    hide Resolve, Compare, OpText, Blank, Trim;
    var e := Equal(l, before, op, after, r);
    PrintTrimmed(e);
    EqualSplits(o, vals, l, before, op, after, r);
    Regroup5(Print(l), before, OpText(op), after, Print(r));
  }

  lemma NegationMeans<V>(o: Ops<V>, vals: V, gap: string, arg: Expr)
    requires Blank(gap) && WellFormed(arg) && !arg.Equal?
    ensures Resolve(o, vals, "!" + gap + Print(arg)) == o.ofBool(!o.truthy(Resolve(o, vals, Print(arg))))
  {
    hide Resolve;
    ResolvePrint(o, vals, Not(gap, arg));
    ResolvePrint(o, vals, arg);
    assert Print(Not(gap, arg)) == "!" + gap + Print(arg);
  }

  // ----- Literals -----

  lemma WordsMean<V>(o: Ops<V>, vals: V, before: string, after: string)
    requires Blank(before) && Blank(after)
    ensures Resolve(o, vals, before + "true" + after) == o.ofBool(true)
    ensures Resolve(o, vals, before + "false" + after) == o.ofBool(false)
    ensures Resolve(o, vals, before + "null" + after) == o.ofNull
    ensures Resolve(o, vals, before + "undefined" + after) == o.undef
  {
    hide Resolve, Blank;
    ResolveGaps(o, vals, before, "true", after);
    ResolveGaps(o, vals, before, "false", after);
    ResolveGaps(o, vals, before, "null", after);
    ResolveGaps(o, vals, before, "undefined", after);
    ResolvePrint(o, vals, Constant(True));
    ResolvePrint(o, vals, Constant(False));
    ResolvePrint(o, vals, Constant(Null));
    ResolvePrint(o, vals, Constant(Undefined));
  }

  /** A number is a sign or none, digits, and perhaps a point and digits. */
  lemma NumbersMean<V>(o: Ops<V>, vals: V, sign: string, whole: string, fraction: string)
    requires (sign == "" || sign == "-") && IsDigits(whole) && IsDigits(fraction)
    ensures Resolve(o, vals, sign + whole) == o.ofNumber(sign + whole)
    ensures Resolve(o, vals, sign + whole + "." + fraction) == o.ofNumber(sign + whole + "." + fraction)
  {
    hide Resolve, IsNumber, IsDigits;
    NumberForms(sign, whole, fraction);
    ResolvePrint(o, vals, Number(sign + whole));
    ResolvePrint(o, vals, Number(sign + whole + "." + fraction));
  }

  lemma NumberForms(sign: string, whole: string, fraction: string)
    requires (sign == "" || sign == "-") && IsDigits(whole) && IsDigits(fraction)
    ensures IsNumber(sign + whole) && IsNumber(sign + whole + "." + fraction)
  {
    WholeForm(sign, whole);
    FractionForm(sign, whole, fraction);
  }

  lemma WholeForm(sign: string, whole: string)
    requires (sign == "" || sign == "-") && IsDigits(whole)
    ensures IsNumber(sign + whole)
  {
    var e, i := sign + whole, |sign|;
    assert forall k | i <= k < |e| :: e[k] == whole[k - i];
    DigitsAre(e, i, |whole|);
  }

  lemma FractionForm(sign: string, whole: string, fraction: string)
    requires (sign == "" || sign == "-") && IsDigits(whole) && IsDigits(fraction)
    ensures IsNumber(sign + whole + "." + fraction)
  {
    var e, i, j := sign + whole + "." + fraction, |sign|, |sign| + |whole|;
    assert e[j] == '.';
    assert forall k | i <= k < j :: e[k] == whole[k - i];
    assert forall k | j + 1 <= k < |e| :: e[k] == fraction[k - j - 1];
    DigitsAre(e, i, |whole|);
    DigitsAre(e, j + 1, |fraction|);
  }

  lemma TextsMean<V>(o: Ops<V>, vals: V, body: string)
    ensures Quotable('\'', body) ==> Resolve(o, vals, "'" + body + "'") == o.ofString(body)
    ensures Quotable('"', body) ==> Resolve(o, vals, "\"" + body + "\"") == o.ofString(body)
  {
    hide Resolve, Quotable;
    if Quotable('\'', body) {
      ResolvePrint(o, vals, Text('\'', body));
    }
    if Quotable('"', body) {
      ResolvePrint(o, vals, Text('"', body));
    }
  }

  lemma BlankMeansUndefined<V>(o: Ops<V>, vals: V, gap: string)
    requires Blank(gap)
    ensures Resolve(o, vals, gap) == o.undef
  {
    hide Resolve;
    ResolveGaps(o, vals, gap, "", "");
    assert gap + "" + "" == gap;
    EmptyMeansUndefined(o, vals);
  }

  lemma EmptyMeansUndefined<V>(o: Ops<V>, vals: V)
    ensures Resolve(o, vals, "") == o.undef
  {}

  // ----- Paths -----

  function Append(segs: Segs, last: Segs): Segs {
    match segs
    case End => last
    case Dot(name, rest) => Dot(name, Append(rest, last))
    case At(before, key, after, rest) => At(before, key, after, Append(rest, last))
  }

  lemma {:induction false} AppendPrints(segs: Segs, last: Segs)
    ensures PrintSegs(Append(segs, last)) == PrintSegs(segs) + PrintSegs(last)
    decreases segs
  {
    hide Print;
    match segs
    case End =>
    case Dot(name, rest) =>
      AppendPrints(rest, last);
      Regroup3("", ".", name, PrintSegs(rest), PrintSegs(last));
    case At(before, key, after, rest) =>
      AppendPrints(rest, last);
      Regroup4("", "[", before + Print(key) + after, "]", PrintSegs(rest), PrintSegs(last));
  }

  lemma {:induction false} AppendEvals<V>(o: Ops<V>, vals: V, segs: Segs, last: Segs, cur: V)
    ensures EvalSegs(o, vals, Append(segs, last), cur) == EvalSegs(o, vals, last, EvalSegs(o, vals, segs, cur))
    decreases segs
  {
    hide Member, Eval;
    match segs
    case End =>
    case Dot(name, rest) => AppendEvals(o, vals, rest, last, Member(o, cur, name));
    case At(before, key, after, rest) =>
      AppendEvals(o, vals, rest, last, if o.nullish(cur) then o.undef else o.index(cur, Eval(o, vals, key)));
  }

  lemma {:induction false} AppendFits(segs: Segs, last: Segs)
    requires WellFormedSegs(segs) && WellFormedSegs(last) && !last.End?
    ensures WellFormedSegs(Append(segs, last)) && !Append(segs, last).End?
    decreases segs
  {
    hide WellFormed, Blank, IsIdent, IsDigits;
    match segs
    case End =>
    case Dot(name, rest) => AppendFits(rest, last);
    case At(before, key, after, rest) => AppendFits(rest, last);
  }

  /** A name alone is looked up in the values, a nullish one has nothing. */
  lemma NameMeans<V>(o: Ops<V>, vals: V, name: string)
    requires IsIdent(name) && !IsWord(name)
    ensures Resolve(o, vals, name) == if o.nullish(vals) then o.undef else o.member(vals, name)
  {
    hide Resolve, IsIdent, IsWord;
    ResolvePrint(o, vals, Path(name, End));
    assert Print(Path(name, End)) == name;
  }

  /** One more name, or one more index, after a path: a step from what the path resolves to. */
  lemma StepMeans<V>(o: Ops<V>, vals: V, head: string, segs: Segs, name: string, before: string, key: Expr,
    after: string)
    requires WellFormed(Path(head, segs)) && (IsIdent(name) || IsDigits(name))
    requires WellFormed(key) && Blank(before) && Blank(after)
    ensures var path := Print(Path(head, segs));
            var v := Resolve(o, vals, path);
            && Resolve(o, vals, path + "." + name) == (if o.nullish(v) then o.undef else o.member(v, name))
            && Resolve(o, vals, path + "[" + before + Print(key) + after + "]")
            == (if o.nullish(v) then o.undef else o.index(v, Resolve(o, vals, Print(key))))
  {
    hide Resolve, IsIdent, IsDigits, IsWord, Blank, Print, PrintSegs;
    DotMeans(o, vals, head, segs, name);
    AtMeans(o, vals, head, segs, before, key, after);
  }

  lemma DotMeans<V>(o: Ops<V>, vals: V, head: string, segs: Segs, name: string)
    requires WellFormed(Path(head, segs)) && (IsIdent(name) || IsDigits(name))
    ensures var path := Print(Path(head, segs));
            var v := Resolve(o, vals, path);
            Resolve(o, vals, path + "." + name) == (if o.nullish(v) then o.undef else o.member(v, name))
  {
    hide Resolve, IsIdent, IsDigits, IsWord, PrintSegs, Append;
    var last := Dot(name, End);
    assert WellFormedSegs(last);
    AppendFits(segs, last);
    AppendPrints(segs, last);
    AppendEvals(o, vals, segs, last, Member(o, vals, head));
    ResolvePrint(o, vals, Path(head, segs));
    ResolvePrint(o, vals, Path(head, Append(segs, last)));
    LastDot(name);
    assert Print(Path(head, Append(segs, last))) == Print(Path(head, segs)) + "." + name;
  }

  lemma LastDot(name: string)
    ensures PrintSegs(Dot(name, End)) == "." + name
  {
    assert name + "" == name;
  }

  lemma LastAt(before: string, key: Expr, after: string)
    ensures PrintSegs(At(before, key, after, End)) == "[" + before + Print(key) + after + "]"
  {
    hide Print;
    assert "[" + ((before + Print(key) + after) + ("]" + "")) == "[" + before + Print(key) + after + "]";
  }

  lemma AtMeans<V>(o: Ops<V>, vals: V, head: string, segs: Segs, before: string, key: Expr, after: string)
    requires WellFormed(Path(head, segs)) && WellFormed(key) && Blank(before) && Blank(after)
    ensures var path := Print(Path(head, segs));
            var v := Resolve(o, vals, path);
            Resolve(o, vals, path + "[" + before + Print(key) + after + "]")
            == (if o.nullish(v) then o.undef else o.index(v, Resolve(o, vals, Print(key))))
  {
    hide Resolve, IsIdent, IsWord, Blank, PrintSegs, Append, Member;
    var last := At(before, key, after, End);
    assert WellFormedSegs(last);
    AppendFits(segs, last);
    AppendPrints(segs, last);
    AppendEvals(o, vals, segs, last, Member(o, vals, head));
    ResolvePrint(o, vals, Path(head, segs));
    ResolvePrint(o, vals, Path(head, Append(segs, last)));
    ResolvePrint(o, vals, key);
    LastAt(before, key, after);
    PathPrints(head, segs);
    PathPrints(head, Append(segs, last));
    Bracketed(head, PrintSegs(segs), before, Print(key), after);
  }

  lemma Bracketed(a: string, b: string, c: string, d: string, e: string)
    ensures a + (b + ("[" + c + d + e + "]")) == (a + b) + "[" + c + d + e + "]"
  {}

  lemma PathPrints(head: string, segs: Segs)
    ensures Print(Path(head, segs)) == head + PrintSegs(segs)
  {}

  // ----- Paths that break off -----

  /** A path followed by more text is read up to that text. */
  lemma {:induction false} PathThen<V>(o: Ops<V>, vals: V, pre: string, segs: Segs, tail: string, cur: V)
    returns (v: V)
    requires pre != "" && WellFormedSegs(segs) && (tail == "" || !IsIdentPart(tail[0]))
    ensures PathFrom(o, vals, pre + PrintSegs(segs) + tail, |pre|, cur)
         == PathFrom(o, vals, pre + PrintSegs(segs) + tail, |pre + PrintSegs(segs)|, v)
    decreases segs
  {
    hide Resolve, Balanced, Quiet, Trim, Blank, IsIdent, IsDigits, IsSpace, PathFrom, Member, NameLength, Print;
    hide Eval;
    match segs
    case End =>
      v := cur;
      assert pre + "" == pre;
    case Dot(name, rest) =>
      SegsStart(rest);
      var more := PrintSegs(rest) + tail;
      PathDot(o, vals, pre, name, more, cur);
      v := PathThen(o, vals, pre + "." + name, rest, tail, Member(o, cur, name));
      Regroup3(pre, ".", name, PrintSegs(rest), tail);
    case At(before, key, after, rest) =>
      PrintTrimmed(key);
      var s := before + Print(key) + after;
      GapsShape(before, Print(key), after);
      var more := PrintSegs(rest) + tail;
      PathAt(o, vals, pre, s, more, cur);
      v := PathThen(o, vals, pre + "[" + s + "]", rest, tail,
                    if o.nullish(cur) then o.undef else o.index(cur, Resolve(o, vals, s)));
      Regroup4(pre, "[", s, "]", PrintSegs(rest), tail);
  }

  /** What cannot follow a path: another character than a dot or a bracket, a dot with no name after it, a bracket that
      is never closed. */
  ghost predicate BreaksOff(tail: string) {
    tail != "" && !IsIdentPart(tail[0])
    && (|| (tail[0] != '.' && tail[0] != '[')
        || (tail[0] == '.' && (|tail| == 1 || (!IsIdentStart(tail[1]) && !IsDigit(tail[1]))))
        || (tail[0] == '[' && ']' !in tail))
  }

  lemma {:induction false} NeverClosed(e: string, j: nat, depth: nat)
    requires j <= |e| && ']' !in e[j..]
    ensures CloseFrom(e, j, depth) == None
    decreases |e| - j
  {
    if j < |e| {
      assert e[j] == e[j..][0] && e[j + 1..] == e[j..][1..];
      NeverClosed(e, j + 1, if e[j] == '[' then depth + 1 else depth);
    }
  }

  lemma NoName(e: string, i: nat)
    requires i <= |e| && (i == |e| || (!IsIdentStart(e[i]) && !IsDigit(e[i])))
    ensures NameLength(e, i) == 0
  {}

  lemma StopsAt<V>(o: Ops<V>, vals: V, pre: string, tail: string, cur: V)
    requires pre != "" && BreaksOff(tail)
    ensures PathFrom(o, vals, pre + tail, |pre|, cur) == o.undef
  {
    hide Resolve, Member, CloseFrom, NameLength, IsIdentPart, IsIdentStart, IsDigit;
    var e := pre + tail;
    assert e[|pre|] == tail[0];
    if tail[0] == '.' {
      if |tail| > 1 {
        assert e[|pre| + 1] == tail[1];
      }
      NoName(e, |pre| + 1);
    } else if tail[0] == '[' {
      assert e[|pre| + 1..] == tail[1..];
      NeverClosed(e, |pre| + 1, 1);
    }
  }

  /** A path that breaks off is undefined, whatever it had reached. */
  lemma BrokenPathUndefined<V>(o: Ops<V>, vals: V, head: string, segs: Segs, tail: string)
    requires IsIdent(head) && WellFormedSegs(segs) && BreaksOff(tail)
    ensures ResolvePath(o, vals, head + PrintSegs(segs) + tail) == o.undef
  {
    hide Resolve, Member, PathFrom, BreaksOff, IsIdent, IsIdentPart, IsIdentStart, IsDigit;
    var e := head + PrintSegs(segs) + tail;
    SegsStart(segs);
    TailStart(tail);
    NamePart(head);
    NameRead("", head, PrintSegs(segs) + tail);
    assert "" + (head + (PrintSegs(segs) + tail)) == e;
    var v := PathThen(o, vals, head, segs, tail, Member(o, vals, head));
    StopsAt(o, vals, head + PrintSegs(segs), tail, v);
  }

  lemma TailStart(tail: string)
    requires BreaksOff(tail)
    ensures tail != "" && !IsIdentPart(tail[0]) && !IsIdentPart('.') && !IsIdentPart('[')
  {}

  lemma NamePart(head: string)
    requires IsIdent(head)
    ensures head != ""
  {}

  /** No name to start with: undefined. */
  lemma NoNameUndefined<V>(o: Ops<V>, vals: V, e: string)
    requires e == "" || !IsIdentStart(e[0])
    ensures ResolvePath(o, vals, e) == o.undef
  {}

  // ----- Operators with nothing on their left -----

  lemma LeadingOperators<V>(o: Ops<V>, vals: V)
    ensures Resolve(o, vals, "==a") == o.undef && Resolve(o, vals, "===a") == o.undef
  {
    hide Resolve;
    LeadingOperator(o, vals, "==a");
    LeadingOperator(o, vals, "===a");
  }

  lemma LeadingOperator<V>(o: Ops<V>, vals: V, e: string)
    requires e == "==a" || e == "===a"
    ensures Resolve(o, vals, e) == o.undef
  {
    hide Resolve;
    TrimSolid(e);
    NothingLeft(e);
    AtomResolves(o, vals, e);
    QuoteIsNotNumber(e);
    NoNameUndefined(o, vals, e);
  }

  lemma NothingLeft(e: string)
    requires e == "==a" || e == "===a"
    ensures FindTopLevelEquality(e) == None
  {
    assert e[..0] == "" && Trim("") == "";
    assert !EqualityAt(e, 0) && !EqualityAt(e, 1) && !EqualityAt(e, 2);
    assert FindFrom(e, 4, 0) == None || |e| == 3;
    assert |e| == 4 ==> FindFrom(e, 3, 0) == None;
    assert FindFrom(e, 3, 0) == None;
    assert FindFrom(e, 2, 0) == None;
    assert FindFrom(e, 1, 0) == None;
  }

  // ----- Characters -----

  /** By code point: names start with a letter, an underscore or a dollar sign and go on with these or digits. */
  lemma NameCharacters(c: char)
    ensures IsIdentStart(c) <==> 65 <= c as int <= 90 || 97 <= c as int <= 122 || c as int == 95 || c as int == 36
    ensures IsDigit(c) <==> 48 <= c as int <= 57
    ensures IsIdentPart(c) <==> IsIdentStart(c) || IsDigit(c)
  {}

  /** By code point: the white space that trimming removes. */
  lemma SpaceCharacters(c: char)
    ensures IsSpace(c) <==>
              || 9 <= c as int <= 13 || 8192 <= c as int <= 8202
              || c as int in {32, 160, 5760, 8232, 8233, 8239, 8287, 12288, 65279}
  {}
}
