/** Expression trees: evaluating the text of a tree gives the value of the tree. */
module ExpressionRoundTrip {
  import opened Text
  import opened Options
  import opened ExpressionResolver

  /** A tree with the white space its text has. */
  datatype Expr =
    | Equality(left: Expr, op: Op, right: Expr, before: string, after: string)
    | Not(operand: Expr, gap: string)
    | Grouped(inner: Expr, before: string, after: string)
    | True
    | False
    | Null
    | Undefined
    | Number(digits: string)
    | Quoted(quote: char, content: string)
    | Path(head: string, steps: seq<Step>)

  datatype Step =
    | Name(name: string)
    | Index(key: Expr, before: string, after: string)

  function Print(e: Expr): string {
    match e
    case Equality(left, op, right, before, after) => Print(left) + before + OpText(op) + after + Print(right)
    case Not(operand, gap) => "!" + gap + Print(operand)
    case Grouped(inner, before, after) => "(" + (before + Print(inner) + after) + ")"
    case True => "true"
    case False => "false"
    case Null => "null"
    case Undefined => "undefined"
    case Number(digits) => digits
    case Quoted(quote, content) => [quote] + content + [quote]
    case Path(head, steps) => head + PrintSteps(steps)
  }

  function PrintSteps(steps: seq<Step>): string {
    if steps == [] then "" else PrintStep(steps[0]) + PrintSteps(steps[1..])
  }

  function PrintStep(step: Step): string {
    match step
    case Name(name) => "." + name
    case Index(key, before, after) => "[" + (before + Print(key) + after) + "]"
  }

  function Eval<V>(h: Host<V>, vals: V, e: Expr): V {
    match e
    case Equality(left, op, right, _, _) => Compare(h, op, Eval(h, vals, left), Eval(h, vals, right))
    case Not(operand, _) => h.boolean(!h.truthy(Eval(h, vals, operand)))
    case Grouped(inner, _, _) => Eval(h, vals, inner)
    case True => h.boolean(true)
    case False => h.boolean(false)
    case Null => h.nul
    case Undefined => h.undef
    case Number(digits) => h.number(digits)
    case Quoted(_, content) => h.text(content)
    case Path(head, steps) => EvalSteps(h, vals, steps, Read(h, vals, h.text(head)))
  }

  function EvalSteps<V>(h: Host<V>, vals: V, steps: seq<Step>, current: V): V {
    if steps == [] then current
    else
      var key := match steps[0] case Name(name) => h.text(name) case Index(key, _, _) => Eval(h, vals, key);
      EvalSteps(h, vals, steps[1..], Read(h, current, key))
  }

  predicate Blank(s: string) { forall c | c in s :: IsSpace(c) }

  predicate IsBracket(c: char) { c == '(' || c == ')' || c == '[' || c == ']' }

  predicate IsIdentifier(s: string) { s != "" && IdentifierLength(s) == |s| }

  /** No equality or inequality sign pair, wherever it starts. */
  predicate NoPair(s: string) { forall i | 0 <= i < |s| - 1 && IsSign(s[i]) :: s[i + 1] != '=' }

  predicate IsReserved(s: string) { s == "true" || s == "false" || s == "null" || s == "undefined" }

  /** The scan for an operator finds none: the guard under which the resolver goes on to the literals. */
  predicate Unbroken(s: string) { forall k: nat | k < |s| :: !IsEquality(s, k) }

  /**
   The trees that may stand anywhere in another: an equality only in parentheses or square brackets, or as
   the right operand of another; quoted text only if its brackets balance and the operator scan passes it.
   */
  predicate WellFormed(e: Expr) {
    match e
    case Equality(left, op, right, before, after) =>
      WellFormed(left) && WellFormed(right) && !left.Equality? && Blank(before) && Blank(after)
    case Not(operand, gap) => WellFormed(operand) && !operand.Equality? && Blank(gap)
    case Grouped(inner, before, after) => WellFormed(inner) && Blank(before) && Blank(after)
    case Number(digits) => IsNumber(digits)
    case Quoted(quote, content) =>
      (quote == '"' || quote == '\'') && Balanced(content) && Unbroken([quote] + content + [quote])
    case Path(head, steps) => IsIdentifier(head) && (steps == [] ==> !IsReserved(head)) && WellFormedSteps(steps)
    case _ => true
  }

  /**
   The trees whose text is read back. What ends the text, below right operands and negations only, is read
   apart from the rest, so quoted text there may hold any brackets.
   */
  predicate Readable(e: Expr) {
    match e
    case Equality(left, op, right, before, after) =>
      WellFormed(left) && Readable(right) && !left.Equality? && Blank(before) && Blank(after)
    case Not(operand, gap) => Readable(operand) && !operand.Equality? && Blank(gap)
    case Quoted(quote, content) => (quote == '"' || quote == '\'') && Unbroken([quote] + content + [quote])
    case _ => WellFormed(e)
  }

  lemma {:induction false} WellFormedIsReadable(e: Expr)
    requires WellFormed(e)
    ensures Readable(e)
  {
    match e
    case Equality(_, _, right, _, _) => WellFormedIsReadable(right);
    case Not(operand, _) => WellFormedIsReadable(operand);
    case _ =>
  }

  predicate WellFormedSteps(steps: seq<Step>) {
    steps != [] ==> WellFormedStep(steps[0]) && WellFormedSteps(steps[1..])
  }

  predicate WellFormedStep(step: Step) {
    match step
    case Name(name) => IsIdentifier(name) || (name != "" && forall c | c in name :: IsDigit(c))
    case Index(key, before, after) => WellFormed(key) && Blank(before) && Blank(after)
  }

  // ----- depth -----

  lemma {:induction false} DepthConcat(a: string, b: string, open: char, close: char, k: nat)
    requires k <= |b|
    ensures Depth(a + b, open, close, |a| + k) == Depth(a, open, close, |a|) + Depth(b, open, close, k)
  {
    if k == 0 { DepthPrefix(a, b, open, close, |a|); } else { DepthConcat(a, b, open, close, k - 1); }
  }

  lemma {:induction false} DepthPrefix(a: string, b: string, open: char, close: char, k: nat)
    requires k <= |a|
    ensures Depth(a + b, open, close, k) == Depth(a, open, close, k)
  {
    if k > 0 { DepthPrefix(a, b, open, close, k - 1); }
  }

  predicate BalancedIn(s: string, open: char, close: char) {
    Depth(s, open, close, |s|) == 0 && forall k | 0 <= k <= |s| :: Depth(s, open, close, k) >= 0
  }

  predicate Balanced(s: string) { BalancedIn(s, '(', ')') && BalancedIn(s, '[', ']') }

  lemma BalancedInConcat(a: string, b: string, open: char, close: char)
    requires BalancedIn(a, open, close) && BalancedIn(b, open, close)
    ensures BalancedIn(a + b, open, close)
  {
    hide Depth;
    forall k | 0 <= k <= |a + b| ensures Depth(a + b, open, close, k) >= 0 {
      if k <= |a| { DepthPrefix(a, b, open, close, k); } else { DepthConcat(a, b, open, close, k - |a|); }
    }
    DepthConcat(a, b, open, close, |b|);
  }

  lemma BalancedConcat(a: string, b: string)
    requires Balanced(a) && Balanced(b)
    ensures Balanced(a + b)
  {
    BalancedInConcat(a, b, '(', ')');
    BalancedInConcat(a, b, '[', ']');
  }

  lemma {:induction false} FlatDepth(s: string, open: char, close: char, k: nat)
    requires k <= |s| && forall i | 0 <= i < |s| :: s[i] != open && s[i] != close
    ensures Depth(s, open, close, k) == 0
  {
    if k > 0 { FlatDepth(s, open, close, k - 1); }
  }

  lemma FlatIsBalanced(s: string)
    requires forall c | c in s :: !IsBracket(c)
    ensures Balanced(s)
    ensures forall k | 0 <= k <= |s| :: Parens(s, k) == 0 && Squares(s, k) == 0
  {
    forall k | 0 <= k <= |s| ensures Depth(s, '(', ')', k) == 0 && Depth(s, '[', ']', k) == 0 {
      assert forall i | 0 <= i < |s| :: s[i] in s;
      FlatDepth(s, '(', ')', k);
      FlatDepth(s, '[', ']', k);
    }
  }

  /** Depths inside an enclosed text, by the kind of its brackets. */
  lemma EnclosedDepth(open: char, close: char, s: string, of: char, cf: char, k: nat)
    requires k <= |s| && open != cf && close != of && of != cf && (open == of <==> close == cf)
    ensures Depth([open] + s + [close], of, cf, k + 1) == Depth(s, of, cf, k) + if open == of then 1 else 0
    ensures Depth([open] + s + [close], of, cf, |s| + 2) == Depth(s, of, cf, |s|)
  {
    assert Depth([open], of, cf, 0) == 0 && Depth([open], of, cf, 1) == if open == of then 1 else 0;
    DepthConcat([open], s, of, cf, k);
    DepthConcat([open], s, of, cf, |s|);
    DepthPrefix([open] + s, [close], of, cf, k + 1);
    DepthConcat([open] + s, [close], of, cf, 1);
    assert Depth([close], of, cf, 0) == 0;
  }

  lemma EnclosedBalancedIn(open: char, close: char, s: string, of: char, cf: char)
    requires BalancedIn(s, of, cf) && open != cf && close != of && of != cf && (open == of <==> close == cf)
    ensures BalancedIn([open] + s + [close], of, cf)
  {
    hide Depth;
    var t := [open] + s + [close];
    EnclosedDepth(open, close, s, of, cf, |s|);
    forall k | 0 <= k <= |t| ensures Depth(t, of, cf, k) >= 0 {
      if k == 0 { DepthZero(t, of, cf); } else if k <= |s| + 1 { EnclosedDepth(open, close, s, of, cf, k - 1); }
    }
  }

  lemma DepthZero(t: string, open: char, close: char)
    ensures Depth(t, open, close, 0) == 0
  {
  }

  lemma EnclosedBalanced(s: string)
    requires Balanced(s)
    ensures Balanced("(" + s + ")") && Balanced("[" + s + "]")
  {
    EnclosedBalancedIn('(', ')', s, '(', ')');
    EnclosedBalancedIn('(', ')', s, '[', ']');
    EnclosedBalancedIn('[', ']', s, '(', ')');
    EnclosedBalancedIn('[', ']', s, '[', ']');
  }

  // ----- sign pairs outside brackets -----

  /** No run of signs outside brackets starts with a pair that reads as an operator. */
  predicate NoOperator(s: string) {
    forall i | 0 <= i < |s| - 1 && Parens(s, i) + Squares(s, i) == 0 && IsSign(s[i]) && s[i + 1] == '=' ::
      i > 0 && IsSign(s[i - 1])
  }

  lemma NoOperatorConcat(a: string, b: string)
    requires Balanced(a) && NoOperator(a) && NoOperator(b)
    requires a == "" || b == "" || !IsSign(a[|a| - 1]) || b[0] != '='
    ensures NoOperator(a + b)
  {
    hide Depth;
    var t := a + b;
    forall i | 0 <= i < |t| - 1 && Parens(t, i) + Squares(t, i) == 0 && IsSign(t[i]) && t[i + 1] == '='
      ensures i > 0 && IsSign(t[i - 1])
    {
      if i < |a| {
        DepthPrefix(a, b, '(', ')', i);
        DepthPrefix(a, b, '[', ']', i);
        if i + 1 < |a| { assert a[i + 1] == t[i + 1] && a[i] == t[i]; }
      } else {
        DepthConcat(a, b, '(', ')', i - |a|);
        DepthConcat(a, b, '[', ']', i - |a|);
        assert b[i - |a|] == t[i] && b[i + 1 - |a|] == t[i + 1];
      }
    }
  }

  lemma EnclosedNoOperator(s: string)
    requires Balanced(s)
    ensures NoOperator("(" + s + ")") && NoOperator("[" + s + "]")
  {
    EnclosedHidesPairs('(', ')', s);
    EnclosedHidesPairs('[', ']', s);
  }

  lemma EnclosedHidesPairs(open: char, close: char, s: string)
    requires Balanced(s) && ((open == '(' && close == ')') || (open == '[' && close == ']'))
    ensures NoOperator([open] + s + [close])
  {
    hide Depth;
    var t := [open] + s + [close];
    forall i | 0 <= i < |t| - 1 && IsSign(t[i]) && t[i + 1] == '=' ensures Parens(t, i) + Squares(t, i) > 0 {
      EnclosedDepth(open, close, s, '(', ')', i - 1);
      EnclosedDepth(open, close, s, '[', ']', i - 1);
    }
  }

  lemma NoPairIsEnough(s: string)
    requires NoPair(s)
    ensures NoOperator(s)
  {
  }

  // ----- the shape of printed text -----

  /** Text that is trimmed, does not begin with '=' and does not end with a sign. */
  predicate Tight(s: string) {
    s != "" && !IsSpace(s[0]) && !IsSpace(s[|s| - 1]) && s[0] != '=' && !IsSign(s[|s| - 1])
  }

  lemma BlankShape(s: string)
    requires Blank(s)
    ensures Balanced(s) && NoOperator(s)
    ensures s != "" ==> !IsSign(s[0]) && !IsSign(s[|s| - 1]) && s[0] != '='
  {
    hide Depth, Balanced, NoOperator;
    assert forall i | 0 <= i < |s| :: s[i] in s;
    FlatIsBalanced(s);
    NoPairIsEnough(s);
  }

  /** White space around text that has the shape of a printed tree. */
  lemma PaddedBalanced(before: string, s: string, after: string)
    requires Blank(before) && Balanced(s) && Blank(after)
    ensures Balanced(before + s + after)
  {
    hide Balanced;
    BlankShape(before);
    BlankShape(after);
    BalancedConcat(before, s);
    BalancedConcat(before + s, after);
  }

  lemma {:induction false} PrintShape(e: Expr)
    requires WellFormed(e)
    ensures Tight(Print(e)) && Balanced(Print(e))
    ensures !e.Equality? ==> NoOperator(Print(e))
  {
    hide Balanced, NoOperator, Tight;
    match e
    case Equality(left, op, right, before, after) =>
      PrintShape(left);
      PrintShape(right);
      EqualityShape(Print(left), before, op, after, Print(right));
    case Not(operand, gap) =>
      PrintShape(operand);
      NotShape(gap, Print(operand));
    case Grouped(inner, before, after) =>
      PrintShape(inner);
      PaddedBalanced(before, Print(inner), after);
      EnclosedBalanced(before + Print(inner) + after);
      EnclosedNoOperator(before + Print(inner) + after);
      EnclosedTight(before + Print(inner) + after);
    case Number(digits) => NumberShape(digits);
    case Quoted(quote, content) => QuotedShape(quote, content);
    case Path(head, steps) =>
      StepsShape(steps);
      PathShape(head, steps);
    case True => WordShape("true");
    case False => WordShape("false");
    case Null => WordShape("null");
    case Undefined => WordShape("undefined");
  }

  lemma EnclosedTight(s: string)
    ensures Tight("(" + s + ")")
  {
  }

  lemma EqualityShape(l: string, before: string, op: Op, after: string, r: string)
    requires Tight(l) && Balanced(l) && Tight(r) && Blank(before) && Blank(after)
    ensures Tight(l + before + OpText(op) + after + r)
    ensures Balanced(r) ==> Balanced(l + before + OpText(op) + after + r)
  {
    hide Balanced;
    BlankShape(before);
    BlankShape(after);
    FlatIsBalanced(OpText(op));
    BalancedConcat(l, before);
    BalancedConcat(l + before, OpText(op));
    BalancedConcat(l + before + OpText(op), after);
    if Balanced(r) { BalancedConcat(l + before + OpText(op) + after, r); }
  }

  lemma NotShape(gap: string, s: string)
    requires Tight(s) && NoOperator(s) && Blank(gap)
    ensures Tight("!" + gap + s) && NoOperator("!" + gap + s)
    ensures Balanced(s) ==> Balanced("!" + gap + s)
  {
    hide Balanced, NoOperator;
    BlankShape(gap);
    FlatIsBalanced("!");
    NoPairIsEnough("!");
    BalancedConcat("!", gap);
    NoOperatorConcat("!", gap);
    if Balanced(s) { BalancedConcat("!" + gap, s); }
    NoOperatorConcat("!" + gap, s);
  }

  /** Text of letters, digits, points and minus signs. */
  lemma PlainShape(s: string)
    requires forall c | c in s :: IsLetter(c) || IsDigit(c) || c == '.' || c == '-'
    ensures Balanced(s) && NoOperator(s)
    ensures s != "" ==> Tight(s)
  {
    hide Balanced, NoOperator;
    assert forall i | 0 <= i < |s| :: s[i] in s;
    FlatIsBalanced(s);
    NoPairIsEnough(s);
  }

  lemma WordShape(s: string)
    requires IsReserved(s)
    ensures Tight(s) && Balanced(s) && NoOperator(s)
  {
    hide Balanced, NoOperator, Tight;
    PlainShape(s);
  }

  lemma NumberShape(s: string)
    requires IsNumber(s)
    ensures Tight(s) && Balanced(s) && NoOperator(s)
    ensures IsDigit(s[0]) || s[0] == '-'
  {
    hide Balanced, NoOperator, Tight;
    NumberCharacters(s);
    PlainShape(s);
  }

  lemma NumberCharacters(s: string)
    requires IsNumber(s)
    ensures s != "" && (IsDigit(s[0]) || s[0] == '-')
    ensures forall c | c in s :: IsLetter(c) || IsDigit(c) || c == '.' || c == '-'
  {
    var start := if s != "" && s[0] == '-' then 1 else 0;
    var whole := Run(s[start..], c => IsDigit(c));
    forall i | start <= i < start + whole ensures IsDigit(s[i]) { assert s[start..][i - start] == s[i]; }
    if start + whole < |s| {
      var rest := s[start + whole + 1..];
      forall i | start + whole + 1 <= i < |s| ensures IsDigit(s[i]) { assert rest[i - (start + whole + 1)] == s[i]; }
    }
  }

  lemma QuotedShape(quote: char, content: string)
    requires Readable(Quoted(quote, content))
    ensures var s := Print(Quoted(quote, content)); Tight(s) && NoOperator(s)
    ensures Balanced(content) ==> Balanced(Print(Quoted(quote, content)))
  {
    hide Balanced, Depth, Trim;
    var s := [quote] + content + [quote];
    forall i | 0 <= i < |s| - 1 && Parens(s, i) + Squares(s, i) == 0 && IsSign(s[i]) && s[i + 1] == '='
      ensures i > 0 && IsSign(s[i - 1])
    {
      QuotedStart(s[..i]);
      assert !IsEquality(s, i);
    }
    if Balanced(content) {
      FlatIsBalanced([quote]);
      BalancedConcat([quote], content);
      BalancedConcat([quote] + content, [quote]);
    }
  }

  /** The shape of text that is read back. */
  lemma {:induction false} ReadableShape(e: Expr)
    requires Readable(e)
    ensures Tight(Print(e))
    ensures !e.Equality? ==> NoOperator(Print(e))
  {
    hide Balanced, NoOperator, Tight, Unbroken;
    match e
    case Equality(left, op, right, before, after) =>
      PrintShape(left);
      ReadableShape(right);
      EqualityShape(Print(left), before, op, after, Print(right));
    case Not(operand, gap) =>
      ReadableShape(operand);
      NotShape(gap, Print(operand));
    case Quoted(quote, content) => QuotedShape(quote, content);
    case _ => PrintShape(e);
  }

  lemma QuotedStart(s: string)
    requires s != "" && !IsSpace(s[0])
    ensures Trim(s) != ""
  {
    KeepsStart(s);
  }

  lemma {:induction false} KeepsStart(s: string)
    requires s != "" && !IsSpace(s[0])
    ensures TrimEnd(s) != ""
  {
    if IsSpace(s[|s| - 1]) { KeepsStart(s[..|s| - 1]); }
  }

  lemma {:induction false} StepsShape(steps: seq<Step>)
    requires WellFormedSteps(steps)
    ensures Balanced(PrintSteps(steps)) && NoOperator(PrintSteps(steps))
    ensures steps != [] ==> Tight(PrintSteps(steps)) && (PrintSteps(steps)[0] == '.' || PrintSteps(steps)[0] == '[')
    ensures steps == [] ==> PrintSteps(steps) == ""
  {
    hide Balanced, NoOperator;
    if steps == [] {
      BlankShape("");
    } else {
      StepShape(steps[0]);
      StepsShape(steps[1..]);
      var first, rest := PrintStep(steps[0]), PrintSteps(steps[1..]);
      BalancedConcat(first, rest);
      NoOperatorConcat(first, rest);
    }
  }

  lemma {:induction false} StepShape(step: Step)
    requires WellFormedStep(step)
    ensures var s := PrintStep(step); Balanced(s) && NoOperator(s) && Tight(s) && (s[0] == '.' || s[0] == '[')
  {
    hide Balanced, NoOperator;
    match step
    case Name(name) =>
      NameCharacters(name);
      PlainShape("." + name);
    case Index(key, before, after) =>
      PrintShape(key);
      PaddedBalanced(before, Print(key), after);
      EnclosedBalanced(before + Print(key) + after);
      EnclosedNoOperator(before + Print(key) + after);
  }

  lemma NameCharacters(name: string)
    requires WellFormedStep(Name(name)) || IsIdentifier(name)
    ensures name != "" && forall c | c in name :: IsLetter(c) || IsDigit(c)
    ensures IsIdentifier(name) ==> IsLetter(name[0])
  {
  }

  lemma PathShape(head: string, steps: seq<Step>)
    requires IsIdentifier(head) && Balanced(PrintSteps(steps)) && NoOperator(PrintSteps(steps))
    requires steps != [] ==> Tight(PrintSteps(steps)) && (PrintSteps(steps)[0] == '.' || PrintSteps(steps)[0] == '[')
    requires steps == [] ==> PrintSteps(steps) == ""
    ensures var s := head + PrintSteps(steps); Tight(s) && Balanced(s) && NoOperator(s) && IsLetter(s[0])
  {
    hide Balanced, NoOperator, PrintSteps;
    NameCharacters(head);
    PlainShape(head);
    BalancedConcat(head, PrintSteps(steps));
    NoOperatorConcat(head, PrintSteps(steps));
  }

  // ----- the scans on printed text -----

  lemma {:induction false} TrimEndBlank(s: string, after: string)
    requires s != "" && !IsSpace(s[|s| - 1]) && Blank(after)
    ensures TrimEnd(s + after) == s
  {
    if after == "" {
      assert s + after == s;
    } else {
      assert (s + after)[..|s + after| - 1] == s + after[..|after| - 1];
      assert IsSpace(after[|after| - 1]);
      TrimEndBlank(s, after[..|after| - 1]);
    }
  }

  lemma {:induction false} TrimStartBlank(before: string, s: string)
    requires Blank(before) && s != "" && !IsSpace(s[0])
    ensures TrimStart(before + s) == s
  {
    if before == "" {
      assert before + s == s;
    } else {
      assert (before + s)[1..] == before[1..] + s && IsSpace(before[0]);
      TrimStartBlank(before[1..], s);
    }
  }

  lemma TrimPadded(before: string, s: string, after: string)
    requires Blank(before) && Tight(s) && Blank(after)
    ensures Trim(before + s + after) == s
  {
    assert before + s + after == before + (s + after);
    TrimStartBlank(before, s + after);
    TrimEndBlank(s, after);
  }

  lemma {:induction false} FirstIs(expr: string, i: nat, j: nat)
    requires i <= j < |expr| && IsEquality(expr, j) && forall k | i <= k < j :: !IsEquality(expr, k)
    ensures FirstEquality(expr, i) == Some(j)
    decreases j - i
  {
    hide IsEquality;
    if i < j { FirstIs(expr, i + 1, j); }
  }

  lemma {:induction false} NoneIs(expr: string, i: nat)
    requires i <= |expr| && NoOperator(expr)
    ensures FirstEquality(expr, i) == None
    decreases |expr| - i
  {
    if i < |expr| { NoneIs(expr, i + 1); }
  }

  lemma NoneBefore(left: string, rest: string, k: nat)
    requires k < |left| && NoOperator(left) && !IsSign(left[|left| - 1])
    ensures !IsEquality(left + rest, k)
  {
    hide Depth;
    DepthPrefix(left, rest, '(', ')', k);
    DepthPrefix(left, rest, '[', ']', k);
  }

  lemma EqualityHere(left: string, rest: string)
    requires Balanced(left) && left != "" && Trim(left) != "" && !IsSign(left[|left| - 1])
    requires |rest| > 1 && IsSign(rest[0]) && rest[1] == '='
    ensures IsEquality(left + rest, |left|)
  {
    hide Depth;
    DepthPrefix(left, rest, '(', ')', |left|);
    DepthPrefix(left, rest, '[', ']', |left|);
    assert (left + rest)[..|left|] == left;
  }

  lemma OperatorHere(left: string, op: Op, rest: string)
    requires rest != "" && rest[0] != '='
    ensures var s := left + (OpText(op) + rest); OpAt(s, |left|) == op && s[|left| + |OpText(op)|..] == rest
  {
    var s := left + (OpText(op) + rest);
    assert s[|left|..] == OpText(op) + rest;
    assert s[|left| + |OpText(op)|..] == s[|left|..][|OpText(op)|..];
    assert s[|left|] == OpText(op)[0] && s[|left| + 1] == OpText(op)[1];
    if op == LooseEqual || op == LooseUnequal { assert s[|left| + 2] == rest[0]; } else { assert s[|left| + 2] == OpText(op)[2]; }
  }

  /** The equality found is the printed one, however deep its operands are. */
  lemma FindsOperator(left: string, op: Op, right: string)
    requires Balanced(left) && NoOperator(left) && Trim(left) != "" && left != "" && !IsSign(left[|left| - 1])
    requires right != "" && right[0] != '='
    ensures var s := left + (OpText(op) + right);
      && FirstEquality(s, 0) == Some(|left|) && OpAt(s, |left|) == op
      && s[..|left|] == left && s[|left| + |OpText(op)|..] == right
  {
    hide Balanced, NoOperator, IsEquality, OpAt, Trim;
    var rest := OpText(op) + right;
    forall k | 0 <= k < |left| ensures !IsEquality(left + rest, k) { NoneBefore(left, rest, k); }
    EqualityHere(left, rest);
    OperatorHere(left, op, right);
    FirstIs(left + rest, 0, |left|);
  }

  /** A printed left operand with the white space after it. */
  lemma LeftOperand(l: string, before: string)
    requires Tight(l) && Balanced(l) && NoOperator(l) && Blank(before)
    ensures var left := l + before;
      Balanced(left) && NoOperator(left) && Trim(left) != "" && left != "" && !IsSign(left[|left| - 1])
  {
    hide Balanced, NoOperator, Trim;
    BlankShape(before);
    BalancedConcat(l, before);
    NoOperatorConcat(l, before);
    TrimPadded("", l, before);
    assert "" + l + before == l + before;
  }

  lemma RightOperand(after: string, r: string)
    requires Tight(r) && Blank(after)
    ensures after + r != "" && (after + r)[0] != '='
  {
    BlankShape(after);
  }

  /** Parentheses around a whole text are recognised. */
  lemma WrapsEnclosed(s: string)
    requires Balanced(s)
    ensures WrapsWhole("(" + s + ")")
  {
    hide Depth;
    var t := "(" + s + ")";
    forall k | 0 <= k < |t| - 1 && t[k] == ')' ensures Parens(t, k + 1) != 0 {
      EnclosedDepth('(', ')', s, '(', ')', k);
    }
  }

  /** Parentheses around only the left operand are not mistaken for parentheses around the whole. */
  lemma DoesNotWrap(s: string, rest: string)
    requires Balanced(s) && rest != ""
    ensures !WrapsWhole("(" + s + ")" + rest)
  {
    hide Depth;
    var t := "(" + s + ")";
    EnclosedDepth('(', ')', s, '(', ')', |s|);
    DepthPrefix(t, rest, '(', ')', |t|);
    assert (t + rest)[|t| - 1] == ')';
  }

  /** A printed equality that begins with a parenthesis has a group on its left. */
  lemma EqualityDoesNotWrap(e: Expr)
    requires Readable(e) && e.Equality?
    ensures Print(e) != "" && (Print(e)[0] == '(' ==> !WrapsWhole(Print(e)))
  {
    hide WrapsWhole, Balanced, NoOperator, Print, WellFormed, Readable, OpText, Tight;
    EqualityText(e);
    PrintShape(e.left);
    var rest := e.before + (OpText(e.op) + (e.after + Print(e.right)));
    if e.left.Grouped? {
      GroupText(e.left);
      var g := e.left;
      PrintShape(g.inner);
      PaddedBalanced(g.before, Print(g.inner), g.after);
      RestIsNotEmpty(e.before, e.op, e.after + Print(e.right));
      DoesNotWrap(g.before + Print(g.inner) + g.after, rest);
    } else {
      WellFormedIsReadable(e.left);
      FirstCharacter(e.left);
    }
  }

  lemma EqualityText(e: Expr)
    requires Readable(e) && e.Equality?
    ensures WellFormed(e.left) && Readable(e.right) && !e.left.Equality? && Blank(e.before) && Blank(e.after)
    ensures Print(e) == Print(e.left) + (e.before + (OpText(e.op) + (e.after + Print(e.right))))
    ensures Print(e) == Print(e.left) + e.before + (OpText(e.op) + (e.after + Print(e.right)))
    ensures Print(e.left) != ""
  {
    hide OpText, Balanced, NoOperator;
    PrintShape(e.left);
    Reassociate(Print(e.left), e.before, OpText(e.op), e.after, Print(e.right));
  }

  lemma Reassociate(a: string, b: string, c: string, d: string, e: string)
    ensures a + b + c + d + e == a + b + (c + (d + e)) == a + (b + (c + (d + e)))
  {
    Associates(a + b + c, d, e);
    Associates(a + b, c, d + e);
    Associates(a, b, c + (d + e));
  }

  lemma Associates(a: string, b: string, c: string)
    ensures a + b + c == a + (b + c)
  {
  }

  lemma RestIsNotEmpty(before: string, op: Op, right: string)
    ensures before + (OpText(op) + right) != ""
  {
  }

  lemma GroupText(e: Expr)
    requires WellFormed(e) && e.Grouped?
    ensures WellFormed(e.inner) && Blank(e.before) && Blank(e.after)
    ensures Print(e) == "(" + (e.before + Print(e.inner) + e.after) + ")"
  {
  }

  lemma FirstCharacter(e: Expr)
    requires Readable(e) && !e.Equality? && !e.Grouped?
    ensures Print(e) != "" && Print(e)[0] != '('
  {
    match e
    case Number(digits) => NumberShape(digits);
    case Path(head, steps) => NameCharacters(head);
    case _ =>
  }

  // ----- the round trip -----

  /** Evaluating the text of a tree, with any white space around it, gives the value of the tree. */
  lemma {:induction false} RoundTrip<V>(h: Host<V>, vals: V, e: Expr, before: string, after: string)
    requires Readable(e) && Blank(before) && Blank(after)
    ensures Resolve(h, vals, before + Print(e) + after) == Eval(h, vals, e)
    decreases e, 1
  {
    hide Balanced, NoOperator, WrapsWhole, FirstEquality, ResolveTerm, Print, Eval, Trim, Unbroken;
    ReadableShape(e);
    var expr := Print(e);
    TrimPadded(before, expr, after);
    match e
    case Equality(_, _, _, _, _) => EqualityRoundTrip(h, vals, e, before + expr + after);
    case Grouped(_, _, _) => GroupRoundTrip(h, vals, e, before + expr + after);
    case _ =>
      NoneIs(expr, 0);
      FirstCharacter(e);
      TermRoundTrip(h, vals, e);
  }

  lemma {:induction false} EqualityRoundTrip<V>(h: Host<V>, vals: V, e: Expr, src: string)
    requires Readable(e) && e.Equality? && Tight(Print(e)) && Trim(src) == Print(e)
    ensures Resolve(h, vals, src) == Eval(h, vals, e)
    decreases e, 0
  {
    hide Balanced, NoOperator, WrapsWhole, Trim, Compare, Resolve, Tight, Print, Eval, WellFormed, Readable, OpText;
    EqualityText(e);
    EqualityValue(h, vals, e);
    var l, r := Print(e.left), Print(e.right);
    var left, right := l + e.before, e.after + r;
    PrintShape(e.left);
    ReadableShape(e.right);
    LeftOperand(l, e.before);
    RightOperand(e.after, r);
    EqualityDoesNotWrap(e);
    ResolvesOperands(h, vals, src, left, e.op, right);
    WellFormedIsReadable(e.left);
    RoundTrip(h, vals, e.left, "", e.before);
    assert "" + l + e.before == left;
    RoundTrip(h, vals, e.right, e.after, "");
    assert e.after + r + "" == right;
  }

  lemma EqualityValue<V>(h: Host<V>, vals: V, e: Expr)
    requires e.Equality?
    ensures Eval(h, vals, e) == Compare(h, e.op, Eval(h, vals, e.left), Eval(h, vals, e.right))
  {
    hide Compare;
  }

  lemma ResolvesOperands<V>(h: Host<V>, vals: V, src: string, left: string, op: Op, right: string)
    requires Balanced(left) && NoOperator(left) && Trim(left) != "" && left != "" && !IsSign(left[|left| - 1])
    requires right != "" && right[0] != '='
    requires var s := left + (OpText(op) + right); Trim(src) == s && (s[0] == '(' ==> !WrapsWhole(s))
    ensures Resolve(h, vals, src) == Compare(h, op, Resolve(h, vals, left), Resolve(h, vals, right))
  {
    hide Balanced, NoOperator, WrapsWhole, FirstEquality, ResolveTerm, Trim, OpAt, Compare, OpText;
    FindsOperator(left, op, right);
  }

  lemma {:induction false} GroupRoundTrip<V>(h: Host<V>, vals: V, e: Expr, src: string)
    requires WellFormed(e) && e.Grouped? && Tight(Print(e)) && Trim(src) == Print(e)
    ensures Resolve(h, vals, src) == Eval(h, vals, e)
    decreases e, 0
  {
    hide Balanced, NoOperator, WrapsWhole, FirstEquality, ResolveTerm, Trim;
    var inside := e.before + Print(e.inner) + e.after;
    PrintShape(e.inner);
    PaddedBalanced(e.before, Print(e.inner), e.after);
    WrapsEnclosed(inside);
    WellFormedIsReadable(e.inner);
    RoundTrip(h, vals, e.inner, e.before, e.after);
    assert Print(e)[1..|Print(e)| - 1] == inside;
  }

  lemma {:induction false} TermRoundTrip<V>(h: Host<V>, vals: V, e: Expr)
    requires Readable(e) && !e.Equality? && !e.Grouped? && Print(e) != ""
    ensures ResolveTerm(h, vals, Print(e)) == Eval(h, vals, e)
    decreases e, 0
  {
    hide Resolve, ResolveTerm, Eval;
    LeafValue(h, vals, e);
    match e
    case Not(operand, gap) =>
      RoundTrip(h, vals, operand, gap, "");
      assert gap + Print(operand) == gap + Print(operand) + "";
      NotIsTerm(h, vals, e);
    case Number(digits) => NumberIsTerm(h, vals, digits);
    case Quoted(quote, content) => QuotedIsTerm(h, vals, quote, content);
    case Path(head, steps) => PathRoundTrip(h, vals, head, steps);
    case _ => WordIsTerm(h, vals, e);
  }

  lemma LeafValue<V>(h: Host<V>, vals: V, e: Expr)
    ensures e.Number? ==> Eval(h, vals, e) == h.number(e.digits)
    ensures e.Quoted? ==> Eval(h, vals, e) == h.text(e.content)
    ensures e.Path? ==> Eval(h, vals, e) == EvalSteps(h, vals, e.steps, Read(h, vals, h.text(e.head)))
    ensures e.Not? ==> Eval(h, vals, e) == h.boolean(!h.truthy(Eval(h, vals, e.operand)))
  {
    hide EvalSteps, Read;
  }

  lemma NotIsTerm<V>(h: Host<V>, vals: V, e: Expr)
    requires e.Not?
    ensures ResolveTerm(h, vals, Print(e)) == h.boolean(!h.truthy(Resolve(h, vals, e.gap + Print(e.operand))))
  {
    hide Resolve, ResolveSteps, IsNumber;
    assert Print(e)[1..] == e.gap + Print(e.operand);
  }

  lemma WordIsTerm<V>(h: Host<V>, vals: V, e: Expr)
    requires e.True? || e.False? || e.Null? || e.Undefined?
    ensures ResolveTerm(h, vals, Print(e)) == Eval(h, vals, e)
  {
    hide Resolve, ResolveSteps, IsNumber;
  }

  lemma NumberIsTerm<V>(h: Host<V>, vals: V, digits: string)
    requires IsNumber(digits) && digits != ""
    ensures ResolveTerm(h, vals, digits) == h.number(digits)
  {
    hide IsNumber, Resolve, ResolveSteps;
    NumberShape(digits);
  }

  lemma QuotedIsTerm<V>(h: Host<V>, vals: V, quote: char, content: string)
    requires quote == '"' || quote == '\''
    ensures ResolveTerm(h, vals, [quote] + content + [quote]) == h.text(content)
  {
    hide Resolve, ResolveSteps;
    var s := [quote] + content + [quote];
    assert s[1..|s| - 1] == content;
  }

  lemma {:induction false} RunConcat(a: string, b: string, test: char -> bool)
    requires (forall c | c in a :: test(c)) && (b != "" ==> !test(b[0]))
    ensures Run(a + b, test) == |a|
  {
    if a == "" {
      assert a + b == b;
    } else {
      assert (a + b)[1..] == a[1..] + b;
      RunConcat(a[1..], b, test);
    }
  }

  /** An identifier ends where the text does, or where no letter and no digit follows. */
  lemma IdentifierEnds(name: string, rest: string)
    requires IsIdentifier(name) && (rest != "" ==> !IsLetter(rest[0]) && !IsDigit(rest[0]))
    ensures IdentifierLength(name + rest) == |name|
  {
    RunConcat(name, rest, c => IsLetter(c) || IsDigit(c));
  }

  lemma NameEnds(name: string, rest: string)
    requires WellFormedStep(Name(name)) && (rest != "" ==> !IsLetter(rest[0]) && !IsDigit(rest[0]))
    ensures NameLength(name + rest) == |name| > 0
  {
    if IsIdentifier(name) {
      IdentifierEnds(name, rest);
    } else {
      assert name[0] in name;
      assert (name + rest)[0] == name[0];
      RunConcat(name, rest, c => IsDigit(c));
    }
  }

  lemma {:induction false} PathRoundTrip<V>(h: Host<V>, vals: V, head: string, steps: seq<Step>)
    requires WellFormed(Path(head, steps))
    ensures head + PrintSteps(steps) != ""
    ensures ResolveTerm(h, vals, head + PrintSteps(steps)) == EvalSteps(h, vals, steps, Read(h, vals, h.text(head)))
    decreases steps, 2
  {
    hide Resolve, ResolveSteps, EvalSteps, PrintSteps, IdentifierLength, Run, IsNumber, Read;
    var rest := PrintSteps(steps);
    var expr := head + rest;
    StepsStart(steps);
    NameCharacters(head);
    IdentifierEnds(head, rest);
    assert expr[..|head|] == head && expr[|head|..] == rest;
    StepsRoundTrip(h, vals, expr, |head|, steps, Read(h, vals, h.text(head)));
    PathIsNoLiteral(head, steps);
  }

  lemma StepsStart(steps: seq<Step>)
    ensures steps == [] <==> PrintSteps(steps) == ""
    ensures steps != [] ==> PrintSteps(steps)[0] == '.' || PrintSteps(steps)[0] == '['
  {
  }

  lemma PathIsNoLiteral(head: string, steps: seq<Step>)
    requires WellFormed(Path(head, steps))
    ensures var s := head + PrintSteps(steps);
      s != "" && IsLetter(s[0]) && !IsReserved(s) && !IsNumber(s)
  {
    hide PrintSteps, IsNumber, IsReserved, IsIdentifier, WellFormedSteps;
    var s := head + PrintSteps(steps);
    NameCharacters(head);
    StepsStart(steps);
    if IsNumber(s) { NumberShape(s); }
    if steps == [] {
      assert s == head;
    } else if IsReserved(s) {
      ReservedIsPlain(s, |head|);
    }
  }

  lemma ReservedIsPlain(s: string, i: nat)
    requires IsReserved(s) && i < |s|
    ensures IsLetter(s[i])
  {
  }

  /** From the start of the steps on, the cursor reads exactly the printed steps. */
  lemma {:induction false} StepsRoundTrip<V>(h: Host<V>, vals: V, expr: string, i: nat, steps: seq<Step>, current: V)
    requires 0 < i <= |expr| && expr[i..] == PrintSteps(steps) && WellFormedSteps(steps)
    ensures ResolveSteps(h, vals, expr, i, current) == EvalSteps(h, vals, steps, current)
    decreases steps, 1
  {
    hide Resolve, ResolveSteps, Eval, EvalSteps, Read, PrintSteps, WellFormed, WellFormedSteps, Balanced, NoOperator, Tight;
    StepsStart(steps);
    FirstStep(h, vals, steps, current);
    if steps == [] {
      NoSteps(h, vals, expr, i, current);
    } else {
      var rest := PrintSteps(steps[1..]);
      StepsStart(steps[1..]);
      match steps[0]
      case Name(name) =>
        ReadsName(h, vals, expr, i, name, rest, current);
        StepsRoundTrip(h, vals, expr, i + 1 + |name|, steps[1..], Read(h, current, h.text(name)));
      case Index(key, before, after) =>
        var inside := before + Print(key) + after;
        PrintShape(key);
        PaddedBalanced(before, Print(key), after);
        ReadsIndex(h, vals, expr, i, inside, rest, current);
        assert key < steps[0];
        WellFormedIsReadable(key);
        RoundTrip(h, vals, key, before, after);
        StepsRoundTrip(h, vals, expr, i + |inside| + 2, steps[1..], Read(h, current, Eval(h, vals, key)));
    }
  }

  lemma FirstStep<V>(h: Host<V>, vals: V, steps: seq<Step>, current: V)
    requires WellFormedSteps(steps)
    ensures steps == [] ==> EvalSteps(h, vals, steps, current) == current
    ensures steps != [] ==> WellFormedStep(steps[0]) && WellFormedSteps(steps[1..])
    ensures steps != [] && steps[0].Name? ==>
      && PrintSteps(steps) == "." + steps[0].name + PrintSteps(steps[1..])
      && EvalSteps(h, vals, steps, current) == EvalSteps(h, vals, steps[1..], Read(h, current, h.text(steps[0].name)))
    ensures steps != [] && steps[0].Index? ==>
      && PrintSteps(steps) == "[" + (steps[0].before + Print(steps[0].key) + steps[0].after) + "]" + PrintSteps(steps[1..])
      && EvalSteps(h, vals, steps, current) == EvalSteps(h, vals, steps[1..], Read(h, current, Eval(h, vals, steps[0].key)))
  {
    hide Read, Eval, Print, WellFormed;
  }

  lemma NoSteps<V>(h: Host<V>, vals: V, expr: string, i: nat, current: V)
    requires 0 < i <= |expr| && expr[i..] == ""
    ensures ResolveSteps(h, vals, expr, i, current) == current
  {
  }

  lemma Split(s: string, i: nat, a: string, b: string)
    requires i <= |s| && s[i..] == a + b
    ensures i + |a| <= |s| && s[i..i + |a|] == a && s[i + |a|..] == b
  {
    assert |s[i..]| == |a| + |b|;
    assert s[i..i + |a|] == s[i..][..|a|];
    assert s[i + |a|..] == s[i..][|a|..];
  }

  lemma ReadsName<V>(h: Host<V>, vals: V, expr: string, i: nat, name: string, rest: string, current: V)
    requires 0 < i <= |expr| && expr[i..] == "." + name + rest
    requires WellFormedStep(Name(name)) && (rest != "" ==> !IsLetter(rest[0]) && !IsDigit(rest[0]))
    ensures i + 1 + |name| <= |expr| && expr[i + 1 + |name|..] == rest
    ensures ResolveSteps(h, vals, expr, i, current)
         == ResolveSteps(h, vals, expr, i + 1 + |name|, Read(h, current, h.text(name)))
  {
    hide Resolve, NameLength, CloseFrom, Read, WellFormedStep;
    assert "." + name + rest == "." + (name + rest);
    Split(expr, i, ".", name + rest);
    Split(expr, i + 1, name, rest);
    NameEnds(name, rest);
  }

  lemma ReadsIndex<V>(h: Host<V>, vals: V, expr: string, i: nat, inside: string, rest: string, current: V)
    requires 0 < i <= |expr| && expr[i..] == "[" + inside + "]" + rest && Balanced(inside)
    ensures i + |inside| + 2 <= |expr| && expr[i + |inside| + 2..] == rest
    ensures ResolveSteps(h, vals, expr, i, current)
         == ResolveSteps(h, vals, expr, i + |inside| + 2, Read(h, current, Resolve(h, vals, inside)))
  {
    hide Resolve, ResolveSteps, CloseFrom, Read, Balanced;
    var close := i + 1 + |inside|;
    assert "[" + inside + "]" + rest == "[" + (inside + ("]" + rest));
    Split(expr, i, "[", inside + ("]" + rest));
    Split(expr, i + 1, inside, "]" + rest);
    Split(expr, close, "]", rest);
    var p := expr[..i + 1];
    assert expr == p + expr[i + 1..] == p + inside + ("]" + rest);
    ClosesHere(p, inside, rest);
    StepsThrough(h, vals, expr, i, close, current);
  }

  lemma StepsThrough<V>(h: Host<V>, vals: V, expr: string, i: nat, close: nat, current: V)
    requires 0 < i < close < |expr| && expr[i] == '[' && CloseFrom(expr, i + 1, i + 1) == Some(close)
    ensures ResolveSteps(h, vals, expr, i, current)
         == ResolveSteps(h, vals, expr, close + 1, Read(h, current, Resolve(h, vals, expr[i + 1..close])))
  {
    hide Resolve, CloseFrom, Read;
  }

  /** The bracket scan stops at the bracket that closes the printed key. */
  lemma ClosesHere(p: string, inside: string, rest: string)
    requires Balanced(inside)
    ensures CloseFrom(p + inside + ("]" + rest), |p|, |p|) == Some(|p| + |inside|)
  {
    ClosesAt(p, inside, rest, 0);
  }

  lemma {:induction false} ClosesAt(p: string, inside: string, rest: string, k: nat)
    requires Balanced(inside) && k <= |inside|
    ensures CloseFrom(p + inside + ("]" + rest), |p|, |p| + k) == Some(|p| + |inside|)
    decreases |inside| - k
  {
    hide Depth;
    var s, tail := p + inside + ("]" + rest), "]" + rest;
    SquaresWithin(p, inside, tail, k);
    SquaresWithin(p, inside, tail, 0);
    if k < |inside| {
      SquaresWithin(p, inside, tail, k + 1);
      assert s[|p| + k] == inside[k];
      DepthStep(inside, k);
      ClosesAt(p, inside, rest, k + 1);
    } else {
      assert s[|p| + k] == ']';
      DepthZero(inside, '[', ']');
    }
  }

  lemma SquaresWithin(p: string, inside: string, tail: string, k: nat)
    requires k <= |inside|
    ensures Squares(p + inside + tail, |p| + k) == Squares(p, |p|) + Squares(inside, k)
  {
    DepthPrefix(p + inside, tail, '[', ']', |p| + k);
    DepthConcat(p, inside, '[', ']', k);
  }

  lemma DepthStep(s: string, k: nat)
    requires k < |s| && Balanced(s)
    ensures s[k] == ']' ==> Squares(s, k) > 0
    ensures Squares(s, 0) == 0
  {
    assert Depth(s, '[', ']', k + 1) >= 0;
  }

  // ----- quoted text -----

  lemma {:induction false} NoneFrom(expr: string, i: nat)
    requires i <= |expr| && Unbroken(expr)
    ensures FirstEquality(expr, i) == None
    decreases |expr| - i
  {
    if i < |expr| { NoneFrom(expr, i + 1); }
  }

  lemma {:induction false} SomeFrom(expr: string, i: nat, k: nat)
    requires i <= k < |expr| && IsEquality(expr, k)
    ensures FirstEquality(expr, i).Some?
    decreases k - i
  {
    if i < k && !IsEquality(expr, i) { SomeFrom(expr, i + 1, k); }
  }

  /**
   Quoted text is returned exactly when the operator scan, which ignores quotes, finds nothing in it;
   otherwise the answer is the truth value of a comparison.
   */
  lemma QuotedIsReturned<V(!new)>(h: Host<V>, vals: V, quote: char, content: string)
    requires quote == '"' || quote == '\''
    requires forall b, t :: h.boolean(b) != h.text(t)
    ensures var s := [quote] + content + [quote];
      Resolve(h, vals, s) == h.text(content) <==> forall k: nat | k < |s| :: !IsEquality(s, k)
  {
    hide IsEquality, ResolveTerm, OpAt, Trim, WrapsWhole;
    var s := [quote] + content + [quote];
    assert Trim(s) == s;
    if Unbroken(s) {
      NoneFrom(s, 0);
      QuotedIsTerm(h, vals, quote, content);
    } else {
      var k: nat :| k < |s| && IsEquality(s, k);
      SomeFrom(s, 0, k);
      ComparesToBoolean(h, content);
      SignAfter(s, FirstEquality(s, 0).value);
    }
  }

  lemma SignAfter(s: string, k: nat)
    requires k < |s| && IsEquality(s, k)
    ensures k + 1 < |s| && k + |OpText(OpAt(s, k))| <= |s|
  {
  }

  /** What becomes of the others: they are cut at the first operator found, and the pieces are compared. */
  lemma QuotedIsCompared<V>(h: Host<V>, vals: V, quote: char, content: string, k: nat)
    requires quote == '"' || quote == '\''
    requires k < |content| + 2 && IsEquality([quote] + content + [quote], k)
    requires forall j: nat | j < k :: !IsEquality([quote] + content + [quote], j)
    ensures var s := [quote] + content + [quote];
      && k + 1 < |s| && k + |OpText(OpAt(s, k))| <= |s|
      && Resolve(h, vals, s) ==
         Compare(h, OpAt(s, k), Resolve(h, vals, s[..k]), Resolve(h, vals, s[k + |OpText(OpAt(s, k))|..]))
  {
    hide IsEquality, ResolveTerm, OpAt, Trim, WrapsWhole, Compare;
    var s := [quote] + content + [quote];
    assert Trim(s) == s;
    SignAfter(s, k);
    FirstIs(s, 0, k);
  }

  lemma ComparesToBoolean<V(!new)>(h: Host<V>, text: string)
    requires forall b, t :: h.boolean(b) != h.text(t)
    ensures forall op, a, b :: Compare(h, op, a, b) != h.text(text)
  {
    forall op, a, b ensures Compare(h, op, a, b) != h.text(text) {
      var truth := match op
        case StrictEqual => h.strictlyEqual(a, b)
        case StrictUnequal => !h.strictlyEqual(a, b)
        case LooseEqual => h.looselyEqual(a, b)
        case LooseUnequal => !h.looselyEqual(a, b);
      assert h.boolean(truth) != h.text(text);
    }
  }

  /** A sign pair that fails, one that does not because a sign precedes it, and a bracket that does no harm. */
  lemma QuotedExamples<V(!new)>(h: Host<V>, vals: V)
    requires forall b, t :: h.boolean(b) != h.text(t)
    ensures Resolve(h, vals, "'a==b'") != h.text("a==b")
    ensures Resolve(h, vals, "'a!!=b'") == h.text("a!!=b")
    ensures Resolve(h, vals, "'(a'") == h.text("(a")
  {
    hide Resolve, IsEquality;
    var q := ['\''];
    assert "'a==b'" == q + "a==b" + q && "'a!!=b'" == q + "a!!=b" + q && "'(a'" == q + "(a" + q;
    QuotedIsReturned(h, vals, '\'', "a==b");
    QuotedIsReturned(h, vals, '\'', "a!!=b");
    QuotedIsReturned(h, vals, '\'', "(a");
    PairsOfExamples();
  }

  lemma PairsOfExamples()
    ensures IsEquality("'a==b'", 2)
    ensures forall k: nat | k < 7 :: !IsEquality("'a!!=b'", k)
    ensures forall k: nat | k < 4 :: !IsEquality("'(a'", k)
  {
    var s := "'a==b'";
    assert s[..2] == "'a" && Trim("'a") == "'a";
    assert Depth(s, '(', ')', 1) == 0 && Depth(s, '(', ')', 2) == 0;
    assert Depth(s, '[', ']', 1) == 0 && Depth(s, '[', ']', 2) == 0;
  }

  /** The operator read is the longest one that stands there, also at the very end of the text. */
  lemma OperatorIsLongest(s: string, k: nat)
    requires k < |s| && IsEquality(s, k)
    ensures OpText(OpAt(s, k)) <= s[k..]
    ensures forall op | OpText(op) <= s[k..] :: |OpText(op)| <= |OpText(OpAt(s, k))|
  {
    hide Trim, Depth;
    var here := s[k..];
    assert here[0] == s[k] && here[1] == s[k + 1];
    if |here| > 2 { assert here[2] == s[k + 2]; }
    forall op | OpText(op) <= here ensures |OpText(op)| <= |OpText(OpAt(s, k))| {
      if |OpText(op)| == 3 { assert OpText(op)[2] == '='; }
    }
  }

  // ----- text that is no path -----

  /** What no path goes on with: another character, a dot without a name, or a bracket that is never closed. */
  predicate Broken(tail: string) {
    && tail != "" && !IsLetter(tail[0]) && !IsDigit(tail[0])
    && (tail[0] == '.' ==> |tail| == 1 || (!IsLetter(tail[1]) && !IsDigit(tail[1])))
    && (tail[0] == '[' ==> forall k | 1 <= k < |tail| :: tail[k] == ']' ==> Squares(tail, k) != 1)
  }

  lemma {:induction false} NeverClosed(expr: string, start: nat, j: nat)
    requires start <= j <= |expr|
    requires forall k | j <= k < |expr| :: expr[k] == ']' ==> Squares(expr, k) != Squares(expr, start)
    ensures CloseFrom(expr, start, j) == None
    decreases |expr| - j
  {
    if j < |expr| { NeverClosed(expr, start, j + 1); }
  }

  lemma BrokenEnds<V>(h: Host<V>, vals: V, expr: string, i: nat, tail: string, current: V)
    requires 0 < i <= |expr| && expr[i..] == tail && Broken(tail)
    ensures ResolveSteps(h, vals, expr, i, current) == h.undef
  {
    hide Resolve, Read, Depth;
    assert expr == expr[..i] + tail && expr[i + 1..] == tail[1..];
    if tail[0] == '[' {
      forall k | i + 1 <= k < |expr| ensures expr[k] == ']' ==> Squares(expr, k) != Squares(expr, i + 1) {
        DepthConcat(expr[..i], tail, '[', ']', k - i);
        DepthConcat(expr[..i], tail, '[', ']', 1);
        OneOpen(tail);
        assert expr[k] == tail[k - i];
      }
      NeverClosed(expr, i + 1, i + 1);
    }
  }

  lemma OneOpen(tail: string)
    requires tail != "" && tail[0] == '['
    ensures Squares(tail, 1) == 1
  {
    assert Depth(tail, '[', ']', 0) == 0;
  }

  lemma {:induction false} BrokenSteps<V>(h: Host<V>, vals: V, expr: string, i: nat, steps: seq<Step>, tail: string, current: V)
    requires 0 < i <= |expr| && expr[i..] == PrintSteps(steps) + tail && WellFormedSteps(steps) && Broken(tail)
    ensures ResolveSteps(h, vals, expr, i, current) == h.undef
    decreases |steps|
  {
    hide Resolve, ResolveSteps, Eval, EvalSteps, Read, Print, PrintSteps, WellFormed, WellFormedSteps, Balanced, NoOperator, Tight, Broken, IsLetter, IsDigit;
    StepsStart(steps);
    FirstStep(h, vals, steps, current);
    if steps == [] {
      assert "" + tail == tail;
      BrokenEnds(h, vals, expr, i, tail, current);
    } else {
      var rest := PrintSteps(steps[1..]) + tail;
      RestStarts(steps[1..], tail);
      match steps[0]
      case Name(name) =>
        Regroup(".", name, PrintSteps(steps[1..]), tail);
        ReadsName(h, vals, expr, i, name, rest, current);
        BrokenSteps(h, vals, expr, i + 1 + |name|, steps[1..], tail, Read(h, current, h.text(name)));
      case Index(key, before, after) =>
        var inside := before + Print(key) + after;
        PrintShape(key);
        PaddedBalanced(before, Print(key), after);
        Regroup("[" + inside, "]", PrintSteps(steps[1..]), tail);
        ReadsIndex(h, vals, expr, i, inside, rest, current);
        BrokenSteps(h, vals, expr, i + |inside| + 2, steps[1..], tail, Read(h, current, Resolve(h, vals, inside)));
    }
  }

  lemma Regroup(a: string, b: string, c: string, d: string)
    ensures a + b + c + d == a + b + (c + d)
  {
  }

  lemma RestStarts(steps: seq<Step>, tail: string)
    requires Broken(tail)
    ensures var rest := PrintSteps(steps) + tail; rest != "" && !IsLetter(rest[0]) && !IsDigit(rest[0])
  {
    hide PrintSteps;
    StepsStart(steps);
  }

  lemma NoLetterFollows(tail: string)
    requires Broken(tail)
    ensures tail != "" && !IsLetter(tail[0]) && !IsDigit(tail[0])
  {
  }

  /** A path that goes on with what no path goes on with has no value, whatever was read until there. */
  lemma BrokenPathIsUndefined<V>(h: Host<V>, vals: V, head: string, steps: seq<Step>, tail: string)
    requires IsIdentifier(head) && WellFormedSteps(steps) && Broken(tail)
    requires var s := head + PrintSteps(steps) + tail; Trim(s) == s && Unbroken(s)
    ensures Resolve(h, vals, head + PrintSteps(steps) + tail) == h.undef
  {
    hide Resolve, ResolveSteps, ResolveTerm, PrintSteps, IdentifierLength, IsNumber, Read, Trim, Unbroken, WrapsWhole, Broken, WellFormedSteps, IsReserved, IsLetter, IsIdentifier;
    var rest := PrintSteps(steps) + tail;
    var s := head + rest;
    assert s == head + PrintSteps(steps) + tail;
    RestStarts(steps, tail);
    BrokenHead(head, rest);
    BrokenSteps(h, vals, s, |head|, steps, tail, Read(h, vals, h.text(head)));
    NoneFound(s);
    ResolvesAsTerm(h, vals, s);
    TermIsPath(h, vals, s);
  }

  lemma NoneFound(s: string)
    requires Unbroken(s)
    ensures FirstEquality(s, 0) == None
  {
    hide IsEquality;
    NoneFrom(s, 0);
  }

  lemma BrokenHead(head: string, rest: string)
    requires IsIdentifier(head) && rest != "" && !IsLetter(rest[0]) && !IsDigit(rest[0])
    ensures var s := head + rest;
      && s[..|head|] == head && s[|head|..] == rest && |head| > 0 && IdentifierLength(s) == |head|
      && IsLetter(s[0]) && s[0] != '(' && !IsReserved(s) && !IsNumber(s)
  {
    hide IdentifierLength, IsNumber, IsReserved, IsIdentifier;
    var s := head + rest;
    NameCharacters(head);
    IdentifierEnds(head, rest);
    if IsNumber(s) { NumberShape(s); }
    if IsReserved(s) { ReservedIsPlain(s, |head|); }
  }

  lemma ResolvesAsTerm<V>(h: Host<V>, vals: V, s: string)
    requires s != "" && Trim(s) == s && s[0] != '(' && FirstEquality(s, 0) == None
    ensures Resolve(h, vals, s) == ResolveTerm(h, vals, s)
  {
    hide ResolveTerm, IsEquality, WrapsWhole;
  }

  lemma TermIsPath<V>(h: Host<V>, vals: V, s: string)
    requires s != "" && IsLetter(s[0]) && !IsReserved(s) && !IsNumber(s) && IdentifierLength(s) > 0
    ensures ResolveTerm(h, vals, s) ==
      ResolveSteps(h, vals, s, IdentifierLength(s), Read(h, vals, h.text(s[..IdentifierLength(s)])))
  {
    hide Resolve, ResolveSteps, IsNumber, Read, IdentifierLength;
  }

  /** Nor has text that begins like none of the literals, a negation, a parenthesis or a path. */
  lemma NoBeginningIsUndefined<V>(h: Host<V>, vals: V, s: string)
    requires s != "" && Trim(s) == s && Unbroken(s)
    requires !IsLetter(s[0]) && !IsDigit(s[0]) && s[0] !in ['-', '!', '(', '"', '\'']
    ensures Resolve(h, vals, s) == h.undef
  {
    hide ResolveSteps, Read, IsEquality, WrapsWhole, Trim;
    NoneFrom(s, 0);
    if IsNumber(s) { NumberShape(s); }
  }

  /** A path that comes upon null or undefined stays undefined, and else reads one property after the other. */
  lemma {:induction false} NullishPath<V>(h: Host<V>, vals: V, steps: seq<Step>, v: V)
    requires steps != [] && h.nullish(h.undef)
    ensures h.nullish(v) ==> EvalSteps(h, vals, steps, v) == h.undef
    ensures !h.nullish(v) ==>
      var key := if steps[0].Name? then h.text(steps[0].name) else Eval(h, vals, steps[0].key);
      EvalSteps(h, vals, steps, v) == EvalSteps(h, vals, steps[1..], h.property(v, key))
    decreases |steps|
  {
    hide Eval;
    if h.nullish(v) {
      if |steps| > 1 { NullishPath(h, vals, steps[1..], h.undef); } else { assert steps[1..] == []; }
    }
  }

  // ----- the words of the grammar -----

  /** An identifier is a letter, a low line or a dollar sign, and after it any of these and digits. */
  lemma IdentifierExactlyWhen(s: string)
    ensures IsIdentifier(s) <==>
      && s != "" && ('a' <= s[0] <= 'z' || 'A' <= s[0] <= 'Z' || s[0] in ['_', '$'])
      && forall i | 0 <= i < |s| ::
           var c := s[i];
           'a' <= c <= 'z' || 'A' <= c <= 'Z' || '0' <= c <= '9' || c in ['_', '$']
  {
    var test := c => IsLetter(c) || IsDigit(c);
    if s != "" && IsLetter(s[0]) {
      if Run(s, test) == |s| {
        forall i | 0 <= i < |s| ensures test(s[i]) { }
      }
    }
  }

  predicate AllDigits(s: string) { s != "" && forall i | 0 <= i < |s| :: '0' <= s[i] <= '9' }

  /** A number is digits, after a minus sign or not, and perhaps a point and more digits. */
  lemma NumberExactlyWhen(s: string)
    ensures IsNumber(s) <==> exists sign, whole, rest :: IsSplit(s, sign, whole, rest)
  {
    hide IsSplit, IsNumber;
    if IsNumber(s) { NumberSplits(s); }
    forall sign, whole, rest | IsSplit(s, sign, whole, rest) ensures IsNumber(s) { SplitIsNumber(s, sign, whole, rest); }
  }

  lemma NumberSplits(s: string)
    requires IsNumber(s)
    ensures exists sign, whole, rest :: IsSplit(s, sign, whole, rest)
  {
    hide Run;
    var start := if s[0] == '-' then 1 else 0;
    var digits := s[start..];
    var n := Run(digits, c => IsDigit(c));
    var whole, rest := digits[..n], digits[n..];
    assert s == s[..start] + whole + rest;
    assert AllDigits(whole);
    if rest != "" {
      assert rest[1..] == s[start + n + 1..];
      assert AllDigits(rest[1..]);
    }
    assert IsSplit(s, s[..start], whole, rest);
  }

  lemma SplitIsNumber(s: string, sign: string, whole: string, rest: string)
    requires IsSplit(s, sign, whole, rest)
    ensures IsNumber(s)
  {
    hide Run, IsNumber, AllDigits;
    NotEmpty(whole);
    SplitStart(s, sign, whole, rest);
    DigitsRun(whole, rest);
    if rest != "" {
      NotEmpty(rest[1..]);
      DigitsRun(rest[1..], "");
      assert rest[1..] + "" == rest[1..];
    }
    PartsAreNumber(s, |sign|, |whole|);
  }

  lemma NotEmpty(digits: string)
    requires AllDigits(digits)
    ensures digits != "" && digits[0] != '-'
  {
  }

  lemma SplitStart(s: string, sign: string, whole: string, rest: string)
    requires s == sign + whole + rest && (sign == "" || sign == "-") && whole != "" && whole[0] != '-'
    ensures s[0] == '-' <==> |sign| == 1
    ensures s[|sign|..] == whole + rest && s[|sign|..][|whole|..] == rest
  {
    assert s == sign + (whole + rest);
  }

  lemma DigitsRun(digits: string, rest: string)
    requires AllDigits(digits) && (rest == "" || rest[0] == '.')
    ensures Run(digits + rest, c => IsDigit(c)) == |digits|
  {
    RunConcat(digits, rest, c => IsDigit(c));
  }

  lemma PartsAreNumber(s: string, start: nat, n: nat)
    requires start + n <= |s| && 0 < n && start == if s != "" && s[0] == '-' then 1 else 0
    requires Run(s[start..], c => IsDigit(c)) == n
    requires var rest := s[start..][n..];
      rest == "" || (rest[0] == '.' && |rest| > 1 && Run(rest[1..], c => IsDigit(c)) == |rest| - 1)
    ensures IsNumber(s)
  {
    hide Run;
    var rest := s[start..][n..];
    assert rest == s[start + n..];
    if rest != "" { assert rest[1..] == s[start + n + 1..]; }
  }

  predicate IsSplit(s: string, sign: string, whole: string, rest: string) {
    && s == sign + whole + rest && (sign == "" || sign == "-") && AllDigits(whole)
    && (rest == "" || (rest[0] == '.' && AllDigits(rest[1..])))
  }
}
