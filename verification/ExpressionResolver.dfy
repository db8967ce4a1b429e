/** The template expression resolver: scans over the text, and the recursion that evaluates it. */
module ExpressionResolver {
  import opened Options
  import opened Text

  datatype Op = StrictEqual | StrictUnequal | LooseEqual | LooseUnequal

  function OpText(op: Op): string {
    match op
    case StrictEqual => "==="
    case StrictUnequal => "!=="
    case LooseEqual => "=="
    case LooseUnequal => "!="
  }

  /** The host language's values and operations, of which the resolver needs these. */
  datatype Host<!V> = Host(
    undef: V,
    nul: V,
    boolean: bool -> V,
    number: string -> V,
    text: string -> V,
    nullish: V -> bool,
    truthy: V -> bool,
    strictlyEqual: (V, V) -> bool,
    looselyEqual: (V, V) -> bool,
    property: (V, V) -> V)

  function Compare<V>(h: Host<V>, op: Op, a: V, b: V): V {
    match op
    case StrictEqual => h.boolean(h.strictlyEqual(a, b))
    case StrictUnequal => h.boolean(!h.strictlyEqual(a, b))
    case LooseEqual => h.boolean(h.looselyEqual(a, b))
    case LooseUnequal => h.boolean(!h.looselyEqual(a, b))
  }

  /** Reading a property: undefined on null and undefined. */
  function Read<V>(h: Host<V>, v: V, key: V): V { if h.nullish(v) then h.undef else h.property(v, key) }

  // ----- scans -----

  /** How many brackets of one kind are open before position i. */
  function Depth(s: string, open: char, close: char, i: nat): int
    requires i <= |s|
  {
    if i == 0 then 0
    else Depth(s, open, close, i - 1) + if s[i - 1] == open then 1 else if s[i - 1] == close then -1 else 0
  }

  function Parens(s: string, i: nat): int
    requires i <= |s|
  {
    Depth(s, '(', ')', i)
  }

  function Squares(s: string, i: nat): int
    requires i <= |s|
  {
    Depth(s, '[', ']', i)
  }

  /** No closing parenthesis before the last character returns to depth zero. */
  predicate WrapsWhole(expr: string) {
    forall k | 0 <= k < |expr| - 1 && expr[k] == ')' :: Parens(expr, k + 1) != 0
  }

  /** `parensWrapWhole`. */
  method ParensWrapWhole(expr: string) returns (wraps: bool)
    ensures wraps <==> WrapsWhole(expr)
  {
    var depth := 0;
    var i := 0;
    while i < |expr| - 1
      invariant 0 <= i <= |expr| && (expr != "" ==> i <= |expr| - 1)
      invariant depth == Parens(expr, i)
      invariant forall k | 0 <= k < i && expr[k] == ')' :: Parens(expr, k + 1) != 0
    {
      if expr[i] == '(' {
        depth := depth + 1;
      } else if expr[i] == ')' {
        depth := depth - 1;
        if depth == 0 { return false; }
      }
      i := i + 1;
    }
    wraps := true;
  }

  predicate IsSign(c: char) { c == '=' || c == '!' }

  /** An equality operator outside brackets, after some text, not the tail of a longer run of signs. */
  predicate IsEquality(expr: string, i: nat)
    requires i < |expr|
  {
    && Parens(expr, i) + Squares(expr, i) == 0
    && IsSign(expr[i]) && i + 1 < |expr| && expr[i + 1] == '='
    && !(i > 0 && IsSign(expr[i - 1]))
    && Trim(expr[..i]) != ""
  }

  function FirstEquality(expr: string, i: nat): (r: Option<nat>)
    requires i <= |expr|
    ensures r.Some? ==> i <= r.value < |expr| && IsEquality(expr, r.value)
    decreases |expr| - i
  {
    if i == |expr| then None else if IsEquality(expr, i) then Some(i) else FirstEquality(expr, i + 1)
  }

  function OpAt(expr: string, i: nat): Op
    requires i + 1 < |expr|
  {
    if i + 2 < |expr| && expr[i + 2] == '=' then (if expr[i] == '=' then StrictEqual else StrictUnequal)
    else if expr[i] == '=' then LooseEqual else LooseUnequal
  }

  /** `findTopLevelEquality`. */
  method FindTopLevelEquality(expr: string) returns (index: Option<nat>)
    ensures index == FirstEquality(expr, 0)
  {
    var depth := 0;
    var i := 0;
    while i < |expr|
      invariant 0 <= i <= |expr|
      invariant depth == Parens(expr, i) + Squares(expr, i)
      invariant FirstEquality(expr, i) == FirstEquality(expr, 0)
    {
      var c := expr[i];
      if c == '[' || c == '(' {
        depth := depth + 1;
      } else if c == ']' || c == ')' {
        depth := depth - 1;
      } else if depth == 0 && IsSign(c) && i + 1 < |expr| && expr[i + 1] == '=' {
        if !(i > 0 && IsSign(expr[i - 1])) && Trim(expr[..i]) != "" { return Some(i); }
      }
      i := i + 1;
    }
    index := None;
  }

  /** The bracket that closes the one before start. */
  function CloseFrom(expr: string, start: nat, j: nat): (r: Option<nat>)
    requires start <= j <= |expr|
    ensures r.Some? ==> j <= r.value < |expr|
    decreases |expr| - j
  {
    if j == |expr| then None
    else if expr[j] == ']' && Squares(expr, j) == Squares(expr, start) then Some(j)
    else CloseFrom(expr, start, j + 1)
  }

  predicate IsLetter(c: char) { 'A' <= c <= 'Z' || 'a' <= c <= 'z' || c == '_' || c == '$' }

  predicate IsDigit(c: char) { '0' <= c <= '9' }

  /** How many characters of s, from the start, satisfy the test. */
  function Run(s: string, test: char -> bool): (n: nat)
    ensures n <= |s| && forall i | 0 <= i < n :: test(s[i])
    ensures n < |s| ==> !test(s[n])
  {
    if s == "" || !test(s[0]) then 0 else 1 + Run(s[1..], test)
  }

  /** The length of the identifier s begins with, as the greedy pattern matches it. */
  function IdentifierLength(s: string): (n: nat)
    ensures n <= |s|
  {
    if s == "" || !IsLetter(s[0]) then 0 else Run(s, c => IsLetter(c) || IsDigit(c))
  }

  /** The name after a dot: an identifier, or else digits. */
  function NameLength(s: string): (n: nat)
    ensures n <= |s|
  {
    if IdentifierLength(s) > 0 then IdentifierLength(s) else Run(s, c => IsDigit(c))
  }

  /** An optional minus, digits, and optionally a point and digits. */
  predicate IsNumber(s: string) {
    var start := if s != "" && s[0] == '-' then 1 else 0;
    var whole := Run(s[start..], c => IsDigit(c));
    whole > 0
    && (start + whole == |s|
        || (s[start + whole] == '.' && start + whole + 1 < |s|
            && start + whole + 1 + Run(s[start + whole + 1..], c => IsDigit(c)) == |s|))
  }

  // ----- resolution -----

  function Resolve<V>(h: Host<V>, vals: V, src: string): V
    decreases |src|, 1, 0
  {
    var expr := Trim(src);
    if expr == "" then h.undef
    else if expr[0] == '(' && expr[|expr| - 1] == ')' && WrapsWhole(expr) then Resolve(h, vals, expr[1..|expr| - 1])
    else
      var at := FirstEquality(expr, 0);
      if at.Some? then
        var op := OpAt(expr, at.value);
        Compare(h, op, Resolve(h, vals, expr[..at.value]), Resolve(h, vals, expr[at.value + |OpText(op)|..]))
      else ResolveTerm(h, vals, expr)
  }

  /** A trimmed text without a top-level equality. */
  function ResolveTerm<V>(h: Host<V>, vals: V, expr: string): V
    requires expr != ""
    decreases |expr|, 0, |expr| + 1
  {
    if expr[0] == '!' then h.boolean(!h.truthy(Resolve(h, vals, expr[1..])))
    else if expr == "true" then h.boolean(true)
    else if expr == "false" then h.boolean(false)
    else if expr == "null" then h.nul
    else if expr == "undefined" then h.undef
    else if IsNumber(expr) then h.number(expr)
    else if |expr| >= 2 && (expr[0] == '"' || expr[0] == '\'') && expr[|expr| - 1] == expr[0] then h.text(expr[1..|expr| - 1])
    else
      var n := IdentifierLength(expr);
      if n == 0 then h.undef else ResolveSteps(h, vals, expr, n, Read(h, vals, h.text(expr[..n])))
  }

  /** The rest of a path from position i on, at a value. */
  function ResolveSteps<V>(h: Host<V>, vals: V, expr: string, i: nat, current: V): V
    requires 0 < i <= |expr|
    decreases |expr|, 0, |expr| - i
  {
    if i == |expr| then current
    else if expr[i] == '.' then
      var n := NameLength(expr[i + 1..]);
      if n == 0 then h.undef
      else ResolveSteps(h, vals, expr, i + 1 + n, Read(h, current, h.text(expr[i + 1..i + 1 + n])))
    else if expr[i] == '[' then
      var close := CloseFrom(expr, i + 1, i + 1);
      if close.None? then h.undef
      else ResolveSteps(h, vals, expr, close.value + 1, Read(h, current, Resolve(h, vals, expr[i + 1..close.value])))
    else h.undef
  }

  /** `resolve`, with its scans as loops. */
  method Evaluate<V>(h: Host<V>, vals: V, src: string) returns (v: V)
    ensures v == Resolve(h, vals, src)
    decreases |src|, 2, 0
  {
    hide Trim, WrapsWhole, FirstEquality, Parens, Squares, ResolveTerm, ResolveSteps, Compare;
    var expr := Trim(src);
    if expr == "" { return h.undef; }
    if expr[0] == '(' && expr[|expr| - 1] == ')' {
      var wraps := ParensWrapWhole(expr);
      if wraps {
        v := Evaluate(h, vals, expr[1..|expr| - 1]);
        return;
      }
    }
    var at := FindTopLevelEquality(expr);
    if at.Some? {
      var op := OpAt(expr, at.value);
      var left := Evaluate(h, vals, expr[..at.value]);
      var right := Evaluate(h, vals, expr[at.value + |OpText(op)|..]);
      return Compare(h, op, left, right);
    }
    v := EvaluateTerm(h, vals, expr);
  }

  /** The part of `resolve` after the equality. */
  method EvaluateTerm<V>(h: Host<V>, vals: V, expr: string) returns (v: V)
    requires expr != ""
    ensures v == ResolveTerm(h, vals, expr)
    decreases |expr|, 1, 0
  {
    hide Resolve, ResolveSteps, IsNumber, Read;
    if expr[0] == '!' {
      var operand := Evaluate(h, vals, expr[1..]);
      return h.boolean(!h.truthy(operand));
    }
    if expr == "true" { return h.boolean(true); }
    if expr == "false" { return h.boolean(false); }
    if expr == "null" { return h.nul; }
    if expr == "undefined" { return h.undef; }
    if IsNumber(expr) { return h.number(expr); }
    if |expr| >= 2 && (expr[0] == '"' || expr[0] == '\'') && expr[|expr| - 1] == expr[0] { return h.text(expr[1..|expr| - 1]); }
    v := ResolvePath(h, vals, expr);
  }

  /** `resolvePath`: the cursor moves over the steps while the value changes. */
  method ResolvePath<V>(h: Host<V>, vals: V, expr: string) returns (current: V)
    requires expr != ""
    ensures current ==
      var n := IdentifierLength(expr);
      if n == 0 then h.undef else ResolveSteps(h, vals, expr, n, Read(h, vals, h.text(expr[..n])))
    decreases |expr|, 0, 0
  {
    hide Resolve, ResolveTerm, Read, Depth, CloseFrom, Run;
    var n := IdentifierLength(expr);
    if n == 0 { return h.undef; }
    current := Read(h, vals, h.text(expr[..n]));
    ghost var result := ResolveSteps(h, vals, expr, n, current);
    var i := n;
    while i < |expr|
      invariant 0 < i <= |expr|
      invariant ResolveSteps(h, vals, expr, i, current) == result
    {
      if expr[i] == '.' {
        var m := NameLength(expr[i + 1..]);
        if m == 0 { return h.undef; }
        current := Read(h, current, h.text(expr[i + 1..i + 1 + m]));
        i := i + 1 + m;
      } else if expr[i] == '[' {
        var close := FindClose(expr, i + 1);
        if close.None? { return h.undef; }
        var key := Evaluate(h, vals, expr[i + 1..close.value]);
        current := Read(h, current, key);
        i := close.value + 1;
      } else {
        return h.undef;
      }
    }
  }

  /** The inner loop of `resolvePath`, which counts square brackets. */
  method FindClose(expr: string, start: nat) returns (close: Option<nat>)
    requires start <= |expr|
    ensures close == CloseFrom(expr, start, start)
  {
    var depth := 1;
    var j := start;
    while j < |expr|
      invariant start <= j <= |expr|
      invariant depth == 1 + Squares(expr, j) - Squares(expr, start)
      invariant CloseFrom(expr, start, j) == CloseFrom(expr, start, start)
    {
      if expr[j] == '[' {
        depth := depth + 1;
      } else if expr[j] == ']' {
        depth := depth - 1;
        if depth == 0 { return Some(j); }
      }
      j := j + 1;
    }
    close := None;
  }
}
