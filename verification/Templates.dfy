/** The template expression language: text is resolved by searching it, not by parsing it first. */
module Templates {
  import opened Optional

  /** JavaScript's values and operators as far as the language uses them. */
  datatype Ops<!V> = Ops(
    undef: V, ofNull: V, ofBool: bool -> V, ofNumber: string -> V, ofString: string -> V,
    truthy: V -> bool, strictEq: (V, V) -> bool, looseEq: (V, V) -> bool,
    nullish: V -> bool, member: (V, string) -> V, index: (V, V) -> V)

  // ----- Characters -----

  /** What String.prototype.trim removes. */
  predicate IsSpace(c: char) {
    || '\t' <= c <= '\r' || c == ' ' || c == '\U{a0}' || c == '\U{1680}' || '\U{2000}' <= c <= '\U{200a}'
    || c == '\U{2028}' || c == '\U{2029}' || c == '\U{202f}' || c == '\U{205f}' || c == '\U{3000}' || c == '\U{feff}'
  }

  predicate IsDigit(c: char) {
    '0' <= c <= '9'
  }

  predicate IsIdentStart(c: char) {
    'A' <= c <= 'Z' || 'a' <= c <= 'z' || c == '_' || c == '$'
  }

  predicate IsIdentPart(c: char) {
    IsIdentStart(c) || IsDigit(c)
  }

  predicate Blank(s: string) {
    forall i | 0 <= i < |s| :: IsSpace(s[i])
  }

  function TrimLeft(s: string): (r: string)
    ensures |r| <= |s| && (r != "" ==> !IsSpace(r[0]))
  {
    if s != "" && IsSpace(s[0]) then TrimLeft(s[1..]) else s
  }

  function TrimRight(s: string): (r: string)
    ensures |r| <= |s| && r <= s && (r != "" ==> !IsSpace(r[|r| - 1]))
  {
    if s != "" && IsSpace(s[|s| - 1]) then TrimRight(s[..|s| - 1]) else s
  }

  function Trim(s: string): (r: string)
    ensures |r| <= |s|
  {
    TrimRight(TrimLeft(s))
  }

  // ----- Prefix matches of the two regular expressions -----

  function PartsLength(s: string, i: nat): (n: nat)
    requires i <= |s|
    ensures i + n <= |s|
    decreases |s| - i
  {
    if i < |s| && IsIdentPart(s[i]) then 1 + PartsLength(s, i + 1) else 0
  }

  /** The length of the identifier at i, or zero. */
  function IdentLength(s: string, i: nat): (n: nat)
    requires i <= |s|
    ensures i + n <= |s|
  {
    if i < |s| && IsIdentStart(s[i]) then 1 + PartsLength(s, i + 1) else 0
  }

  function DigitsLength(s: string, i: nat): (n: nat)
    requires i <= |s|
    ensures i + n <= |s| && forall k | i <= k < i + n :: IsDigit(s[k])
    decreases |s| - i
  {
    if i < |s| && IsDigit(s[i]) then 1 + DigitsLength(s, i + 1) else 0
  }

  /** The whole text is a decimal number with an optional sign and fraction. */
  predicate IsNumber(s: string) {
    var i := if s != "" && s[0] == '-' then 1 else 0;
    var j := i + DigitsLength(s, i);
    && j > i
    && (j == |s| || (s[j] == '.' && DigitsLength(s, j + 1) > 0 && j + 1 + DigitsLength(s, j + 1) == |s|))
  }

  // ----- The searches -----

  /** Whether the depth of parentheses opened by the first character stays open until the last. */
  function WrapFrom(e: string, i: nat, depth: int): bool
    decreases |e| - i
  {
    if i + 1 >= |e| then true
    else if e[i] == '(' then WrapFrom(e, i + 1, depth + 1)
    else if e[i] == ')' then depth != 1 && WrapFrom(e, i + 1, depth - 1)
    else WrapFrom(e, i + 1, depth)
  }

  predicate ParensWrapWhole(e: string) {
    WrapFrom(e, 0, 0)
  }

  method ParensWrapWholeLoop(e: string) returns (r: bool)
    ensures r == ParensWrapWhole(e)
  {
    var depth := 0;
    var i := 0;
    while i < |e| - 1
      invariant 0 <= i && WrapFrom(e, i, depth) == ParensWrapWhole(e)
      decreases |e| - i
    {
      if e[i] == '(' {
        depth := depth + 1;
      } else if e[i] == ')' {
        depth := depth - 1;
        if depth == 0 {
          return false;
        }
      }
      i := i + 1;
    }
    return true;
  }

  datatype Op = StrictEq | StrictNe | LooseEq | LooseNe

  function OpText(op: Op): string {
    match op case StrictEq => "===" case StrictNe => "!==" case LooseEq => "==" case LooseNe => "!="
  }

  function OpOf(bang: bool, triple: bool): Op {
    if triple then (if bang then StrictNe else StrictEq) else (if bang then LooseNe else LooseEq)
  }

  datatype Found = Found(index: nat, op: Op)

  predicate Opens(c: char) { c == '[' || c == '(' }
  predicate Closes(c: char) { c == ']' || c == ')' }
  predicate Marks(c: char) { c == '=' || c == '!' }

  /** An equality operator at i: not the tail of another one, and with something on its left. */
  predicate EqualityAt(e: string, i: nat)
    requires i < |e|
  {
    && Marks(e[i]) && i + 1 < |e| && e[i + 1] == '='
    && !(i > 0 && Marks(e[i - 1])) && Trim(e[..i]) != ""
  }

  function FoundAt(e: string, i: nat): (r: Found)
    requires i < |e| && EqualityAt(e, i)
    ensures r.index == i > 0 && i + |OpText(r.op)| <= |e|
  {
    Found(i, OpOf(e[i] == '!', i + 2 < |e| && e[i + 2] == '='))
  }

  function FindFrom(e: string, i: nat, depth: int): (r: Option<Found>)
    ensures r.Some? ==> 0 < r.value.index && r.value.index + |OpText(r.value.op)| <= |e|
    decreases |e| - i
  {
    if i >= |e| then None
    else if Opens(e[i]) then FindFrom(e, i + 1, depth + 1)
    else if Closes(e[i]) then FindFrom(e, i + 1, depth - 1)
    else if depth == 0 && EqualityAt(e, i) then Some(FoundAt(e, i))
    else FindFrom(e, i + 1, depth)
  }

  function FindTopLevelEquality(e: string): (r: Option<Found>)
    ensures r.Some? ==> 0 < r.value.index && r.value.index + |OpText(r.value.op)| <= |e|
  {
    FindFrom(e, 0, 0)
  }

  method FindTopLevelEqualityLoop(e: string) returns (r: Option<Found>)
    ensures r == FindTopLevelEquality(e)
  {
    var depth := 0;
    var i := 0;
    while i < |e|
      invariant 0 <= i <= |e| && FindFrom(e, i, depth) == FindTopLevelEquality(e)
    {
      var c := e[i];
      if c == '[' || c == '(' {
        depth := depth + 1;
      } else if c == ']' || c == ')' {
        depth := depth - 1;
      } else if depth == 0 && (c == '=' || c == '!') && i + 1 < |e| && e[i + 1] == '=' {
        if !(i > 0 && (e[i - 1] == '=' || e[i - 1] == '!')) && Trim(e[..i]) != "" {
          var triple := i + 2 < |e| && e[i + 2] == '=';
          return Some(Found(i, OpOf(c == '!', triple)));
        }
      }
      i := i + 1;
    }
    return None;
  }

  /** The bracket that closes the one already open at this depth. */
  function CloseFrom(e: string, j: nat, depth: nat): (r: Option<nat>)
    requires j <= |e|
    ensures r.Some? ==> j <= r.value < |e|
    decreases |e| - j
  {
    if j == |e| then None
    else if e[j] == '[' then CloseFrom(e, j + 1, depth + 1)
    else if e[j] == ']' then (if depth <= 1 then Some(j) else CloseFrom(e, j + 1, depth - 1))
    else CloseFrom(e, j + 1, depth)
  }

  // ----- Resolution -----

  function Member<V>(o: Ops<V>, v: V, name: string): V {
    if o.nullish(v) then o.undef else o.member(v, name)
  }

  function Compare<V>(o: Ops<V>, op: Op, l: V, r: V): V {
    match op
    case StrictEq => o.ofBool(o.strictEq(l, r))
    case StrictNe => o.ofBool(!o.strictEq(l, r))
    case LooseEq => o.ofBool(o.looseEq(l, r))
    case LooseNe => o.ofBool(!o.looseEq(l, r))
  }

  predicate IsString(e: string) {
    |e| >= 2 && (e[0] == '"' || e[0] == '\'') && e[|e| - 1] == e[0]
  }

  /** `resolve`. Every call it makes, directly or through a path, is on strictly shorter text. */
  function Resolve<V>(o: Ops<V>, vals: V, src: string): V
    decreases |src|, 1, 0
  {
    var e := Trim(src);
    if e == "" then o.undef
    else if e[0] == '(' && e[|e| - 1] == ')' && ParensWrapWhole(e) then Resolve(o, vals, e[1..|e| - 1])
    else
      match FindTopLevelEquality(e)
      case Some(eq) =>
        Compare(o, eq.op, Resolve(o, vals, e[..eq.index]), Resolve(o, vals, e[eq.index + |OpText(eq.op)|..]))
      case None =>
        if e[0] == '!' then o.ofBool(!o.truthy(Resolve(o, vals, e[1..])))
        else if e == "true" then o.ofBool(true)
        else if e == "false" then o.ofBool(false)
        else if e == "null" then o.ofNull
        else if e == "undefined" then o.undef
        else if IsNumber(e) then o.ofNumber(e)
        else if IsString(e) then o.ofString(e[1..|e| - 1])
        else ResolvePath(o, vals, e)
  }

  function ResolvePath<V>(o: Ops<V>, vals: V, e: string): V
    decreases |e|, 0, |e| + 1
  {
    var n := IdentLength(e, 0);
    if n == 0 then o.undef else PathFrom(o, vals, e, n, Member(o, vals, e[..n]))
  }

  /** The length of the name after a dot, or zero. */
  function NameLength(e: string, i: nat): (n: nat)
    requires i <= |e|
    ensures i + n <= |e|
  {
    if IdentLength(e, i) > 0 then IdentLength(e, i) else DigitsLength(e, i)
  }

  function PathFrom<V>(o: Ops<V>, vals: V, e: string, i: nat, cur: V): V
    requires 0 < i <= |e|
    decreases |e|, 0, |e| - i
  {
    if i == |e| then cur
    else if e[i] == '.' then
      var m := NameLength(e, i + 1);
      if m == 0 then o.undef else PathFrom(o, vals, e, i + 1 + m, Member(o, cur, e[i + 1..i + 1 + m]))
    else if e[i] == '[' then
      match CloseFrom(e, i + 1, 1)
      case None => o.undef
      case Some(j) =>
        var key := Resolve(o, vals, e[i + 1..j]);
        PathFrom(o, vals, e, j + 1, if o.nullish(cur) then o.undef else o.index(cur, key))
    else o.undef
  }

  /** The inner loop of `resolvePath`. */
  method CloseBracket(e: string, i: nat) returns (r: Option<nat>)
    requires i <= |e|
    ensures r == CloseFrom(e, i, 1)
  {
    var depth := 1;
    var j := i;
    while j < |e| && depth > 0
      invariant i <= j <= |e| && depth >= 1
      invariant CloseFrom(e, j, depth) == CloseFrom(e, i, 1)
      decreases |e| - j
    {
      if e[j] == '[' {
        depth := depth + 1;
      } else if e[j] == ']' {
        if depth == 1 {
          break;
        }
        depth := depth - 1;
      }
      j := j + 1;
    }
    r := if j < |e| then Some(j) else None;
  }

  /** The outer loop of `resolvePath`. */
  method ResolvePathLoop<V>(o: Ops<V>, vals: V, e: string) returns (r: V)
    ensures r == ResolvePath(o, vals, e)
  {
    hide Resolve, Member, CloseFrom, IdentLength, NameLength;
    var n := IdentLength(e, 0);
    if n == 0 {
      return o.undef;
    }
    var cur := Member(o, vals, e[..n]);
    var i := n;
    while i < |e|
      invariant 0 < i <= |e| && PathFrom(o, vals, e, i, cur) == ResolvePath(o, vals, e)
    {
      if e[i] == '.' {
        var m := NameLength(e, i + 1);
        if m == 0 {
          return o.undef;
        }
        cur := Member(o, cur, e[i + 1..i + 1 + m]);
        i := i + 1 + m;
      } else if e[i] == '[' {
        var j := CloseBracket(e, i + 1);
        if j == None {
          return o.undef;
        }
        var key := Resolve(o, vals, e[i + 1..j.value]);
        cur := if o.nullish(cur) then o.undef else o.index(cur, key);
        i := j.value + 1;
      } else {
        return o.undef;
      }
    }
    return cur;
  }
}
