/**
 EDM140 local assignment syntax: a recursive-descent recogniser with a nesting
 bound and a mask of the variables read, matched against a declarative grammar.
 */
module LocalAssignment {

  const MAX_LENGTH: nat := 64
  const MAX_DEPTH: nat := 8

  // --------------------------------------------------------------- grammar

  datatype AddOp = Plus | Minus
  datatype MulOp = Times | Divide

  datatype Expr = Single(term: Term) | Sum(term: Term, add: AddOp, rest: Expr)
  datatype Term = Only(factor: Factor) | Product(factor: Factor, mul: MulOp, rest: Term)
  datatype Factor =
    | Signed(sign: AddOp, operand: Factor)
    | Bracket(square: bool, inside: Expr)
    | Variable(second: bool)
    | Number(whole: string, point: bool, fraction: string)

  predicate IsDigit(c: char) { '0' <= c <= '9' }

  predicate Digits(s: string) { forall i :: 0 <= i < |s| ==> IsDigit(s[i]) }

  predicate IsAdd(c: char) { c == '+' || c == '-' }

  predicate IsMul(c: char) { c == '*' || c == '/' }

  predicate IsClose(c: char) { c == ']' || c == ')' }

  function AddText(op: AddOp): (c: char)
    ensures IsAdd(c) && AddOf(c) == op
  {
    if op.Plus? then '+' else '-'
  }

  function AddOf(c: char): AddOp { if c == '+' then Plus else Minus }

  function MulText(op: MulOp): (c: char)
    ensures IsMul(c) && MulOf(c) == op
  {
    if op.Times? then '*' else '/'
  }

  function MulOf(c: char): MulOp { if c == '*' then Times else Divide }

  /** A number has a digit on some side of its optional point. */
  predicate NumberForm(whole: string, point: bool, fraction: string) {
    Digits(whole) && Digits(fraction) && |whole| + |fraction| > 0 && (point || fraction == "")
  }

  predicate WfExpr(x: Expr) {
    WfTerm(x.term) && (x.Sum? ==> WfExpr(x.rest))
  }

  predicate WfTerm(x: Term) {
    WfFactor(x.factor) && (x.Product? ==> WfTerm(x.rest))
  }

  predicate WfFactor(x: Factor) {
    match x
    case Signed(_, operand) => WfFactor(operand)
    case Bracket(_, inside) => WfExpr(inside)
    case Variable(_) => true
    case Number(whole, point, fraction) => NumberForm(whole, point, fraction)
  }

  function PrintExpr(x: Expr): string {
    match x
    case Single(term) => PrintTerm(term)
    case Sum(term, op, rest) => PrintTerm(term) + [AddText(op)] + PrintExpr(rest)
  }

  function PrintTerm(x: Term): string {
    match x
    case Only(factor) => PrintFactor(factor)
    case Product(factor, op, rest) => PrintFactor(factor) + [MulText(op)] + PrintTerm(rest)
  }

  function PrintFactor(x: Factor): string {
    match x
    case Signed(op, operand) => [AddText(op)] + PrintFactor(operand)
    case Bracket(square, inside) => [OpenText(square)] + PrintExpr(inside) + [CloseText(square)]
    case Variable(second) => ['#', if second then '2' else '1']
    case Number(whole, point, fraction) => whole + (if point then ['.'] + fraction else [])
  }

  function OpenText(square: bool): char { if square then '[' else '(' }

  function CloseText(square: bool): char { if square then ']' else ')' }

  function Max(a: nat, b: nat): nat { if a < b then b else a }

  /** Nesting of unary signs and brackets. */
  function NestExpr(x: Expr): nat {
    if x.Single? then NestTerm(x.term) else Max(NestTerm(x.term), NestExpr(x.rest))
  }

  function NestTerm(x: Term): nat {
    if x.Only? then NestFactor(x.factor) else Max(NestFactor(x.factor), NestTerm(x.rest))
  }

  function NestFactor(x: Factor): nat {
    match x
    case Signed(_, operand) => 1 + NestFactor(operand)
    case Bracket(_, inside) => 1 + NestExpr(inside)
    case Variable(_) => 0
    case Number(_, _, _) => 0
  }

  /** The variables #1 and #2 a tree reads. */
  function VarsExpr(x: Expr): set<nat> {
    if x.Single? then VarsTerm(x.term) else VarsTerm(x.term) + VarsExpr(x.rest)
  }

  function VarsTerm(x: Term): set<nat> {
    if x.Only? then VarsFactor(x.factor) else VarsFactor(x.factor) + VarsTerm(x.rest)
  }

  function VarsFactor(x: Factor): set<nat> {
    match x
    case Signed(_, operand) => VarsFactor(operand)
    case Bracket(_, inside) => VarsExpr(inside)
    case Variable(second) => {if second then 2 else 1}
    case Number(_, _, _) => {}
  }

  // ---------------------------------------------------------- spec of a scan

  datatype Scan<T> = Fail | At(end: nat, tree: T)

  /** End of the run of digits that starts at p. */
  function DigitRun(t: string, p: nat): (e: nat)
    requires p <= |t|
    ensures p <= e <= |t| && Digits(t[p..e])
    ensures e < |t| ==> !IsDigit(t[e])
    decreases |t| - p
  {
    if p < |t| && IsDigit(t[p]) then DigitRun(t, p + 1) else p
  }

  function ScanExpr(t: string, p: nat, d: nat): (s: Scan<Expr>)
    requires p <= |t|
    ensures s.At? ==> p < s.end <= |t|
    decreases |t| - p, 3
  {
    var first := ScanTerm(t, p, d);
    if first.Fail? then Fail
    else if first.end < |t| && IsAdd(t[first.end]) then
      var rest := ScanExpr(t, first.end + 1, d);
      if rest.Fail? then Fail else At(rest.end, Sum(first.tree, AddOf(t[first.end]), rest.tree))
    else At(first.end, Single(first.tree))
  }

  function ScanTerm(t: string, p: nat, d: nat): (s: Scan<Term>)
    requires p <= |t|
    ensures s.At? ==> p < s.end <= |t|
    decreases |t| - p, 2
  {
    var first := ScanFactor(t, p, d);
    if first.Fail? then Fail
    else if first.end < |t| && IsMul(t[first.end]) then
      var rest := ScanTerm(t, first.end + 1, d);
      if rest.Fail? then Fail else At(rest.end, Product(first.tree, MulOf(t[first.end]), rest.tree))
    else At(first.end, Only(first.tree))
  }

  function ScanFactor(t: string, p: nat, d: nat): (s: Scan<Factor>)
    requires p <= |t|
    ensures s.At? ==> p < s.end <= |t|
    decreases |t| - p, 1
  {
    if p == |t| || d > MAX_DEPTH then Fail
    else if IsAdd(t[p]) then
      var s := ScanFactor(t, p + 1, d + 1);
      if s.Fail? then Fail else At(s.end, Signed(AddOf(t[p]), s.tree))
    else if t[p] == '[' || t[p] == '(' then
      var s := ScanExpr(t, p + 1, d + 1);
      if s.Fail? || s.end == |t| || t[s.end] != CloseText(t[p] == '[') then Fail
      else At(s.end + 1, Bracket(t[p] == '[', s.tree))
    else if t[p] == '#' then
      if p + 1 == |t| || (t[p + 1] != '1' && t[p + 1] != '2') then Fail
      else At(p + 2, Variable(t[p + 1] == '2'))
    else ScanNumber(t, p)
  }

  function ScanNumber(t: string, p: nat): (s: Scan<Factor>)
    requires p <= |t|
    ensures s.At? ==> p < s.end <= |t|
  {
    var m := DigitRun(t, p);
    if m < |t| && t[m] == '.' then
      var e := DigitRun(t, m + 1);
      if m == p && e == m + 1 then Fail else At(e, Number(t[p..m], true, t[m + 1..e]))
    else if m == p then Fail else At(m, Number(t[p..m], false, ""))
  }

  // -------------------------------------------------------- the recogniser

  /** The mask bits of a set of variables: bit 0 for #1 and bit 1 for #2. */
  function MaskOf(vars: set<nat>): bv8 {
    (if 1 in vars then 1 else 0) | (if 2 in vars then 2 else 0)
  }

  lemma MaskUnion(vars: set<nat>, which: nat)
    requires which == 1 || which == 2
    ensures MaskOf(vars + {which}) == MaskOf(vars) | (if which == 1 then 1 else 2)
  {
  }

  /** How a scan in progress at p, after reading the variables in seen, relates to the scan of the whole. */
  ghost predicate ExprGoesOn(whole: Scan<Expr>, seen: set<nat>, t: string, p: nat, d: nat)
    requires p <= |t|
  {
    if p < |t| && IsAdd(t[p]) then
      var rest := ScanExpr(t, p + 1, d);
      if rest.Fail? then whole.Fail?
      else whole.At? && whole.end == rest.end && VarsExpr(whole.tree) == seen + VarsExpr(rest.tree)
    else whole.At? && whole.end == p && VarsExpr(whole.tree) == seen
  }

  ghost predicate TermGoesOn(whole: Scan<Term>, seen: set<nat>, t: string, p: nat, d: nat)
    requires p <= |t|
  {
    if p < |t| && IsMul(t[p]) then
      var rest := ScanTerm(t, p + 1, d);
      if rest.Fail? then whole.Fail?
      else whole.At? && whole.end == rest.end && VarsTerm(whole.tree) == seen + VarsTerm(rest.tree)
    else whole.At? && whole.end == p && VarsTerm(whole.tree) == seen
  }

  lemma ExprBegins(t: string, p: nat, d: nat)
    requires p <= |t|
    ensures var first := ScanTerm(t, p, d);
            if first.Fail? then ScanExpr(t, p, d).Fail?
            else ExprGoesOn(ScanExpr(t, p, d), VarsTerm(first.tree), t, first.end, d)
  {
  }

  lemma ExprStep(whole: Scan<Expr>, seen: set<nat>, t: string, p: nat, d: nat)
    requires p < |t| && IsAdd(t[p]) && ExprGoesOn(whole, seen, t, p, d)
    ensures var next := ScanTerm(t, p + 1, d);
            if next.Fail? then whole.Fail?
            else ExprGoesOn(whole, seen + VarsTerm(next.tree), t, next.end, d)
  {
    var next := ScanTerm(t, p + 1, d);
    if next.At? {
      var rest := ScanExpr(t, p + 1, d);
      if rest.At? {
        assert seen + VarsExpr(rest.tree) == seen + VarsTerm(next.tree)
               + (if rest.tree.Sum? then VarsExpr(rest.tree.rest) else {});
      }
    }
  }

  lemma TermBegins(t: string, p: nat, d: nat)
    requires p <= |t|
    ensures var first := ScanFactor(t, p, d);
            if first.Fail? then ScanTerm(t, p, d).Fail?
            else TermGoesOn(ScanTerm(t, p, d), VarsFactor(first.tree), t, first.end, d)
  {
  }

  lemma TermStep(whole: Scan<Term>, seen: set<nat>, t: string, p: nat, d: nat)
    requires p < |t| && IsMul(t[p]) && TermGoesOn(whole, seen, t, p, d)
    ensures var next := ScanFactor(t, p + 1, d);
            if next.Fail? then whole.Fail?
            else TermGoesOn(whole, seen + VarsFactor(next.tree), t, next.end, d)
  {
    var next := ScanFactor(t, p + 1, d);
    if next.At? {
      var rest := ScanTerm(t, p + 1, d);
      if rest.At? {
        assert seen + VarsTerm(rest.tree) == seen + VarsFactor(next.tree)
               + (if rest.tree.Product? then VarsTerm(rest.tree.rest) else {});
      }
    }
  }

  class Arithmetic {
    const text: string
    var position: nat
    var readMask: bv8
    ghost var vars: set<nat>

    ghost predicate Valid()
      reads this
    {
      position <= |text| && readMask == MaskOf(vars)
    }

    constructor (input: string)
      ensures Valid() && text == input && position == 0 && vars == {}
    {
      text := input;
      position, readMask, vars := 0, 0, {};
    }

    method Parse() returns (ok: bool, mask: bv8)
      requires Valid() && position == 0 && vars == {}
      modifies this
      ensures ok <==> 1 <= |text| <= MAX_LENGTH && ScanExpr(text, 0, 0).At? && ScanExpr(text, 0, 0).end == |text|
      ensures mask == if ok then MaskOf(VarsExpr(ScanExpr(text, 0, 0).tree)) else 0
    {
      if |text| == 0 || |text| > MAX_LENGTH {
        return false, 0;
      }
      var parsed := Expression(0);
      if !parsed || position != |text| {
        return false, 0;
      }
      assert {} + vars == vars;
      return true, readMask;
    }

    method Expression(depth: nat) returns (ok: bool)
      requires Valid()
      modifies this
      ensures Valid()
      ensures var s := ScanExpr(text, old(position), depth);
              ok == s.At? && (ok ==> position == s.end && vars == old(vars) + VarsExpr(s.tree))
      decreases |text| - position, 3
    {
      hide ScanExpr, ScanTerm, VarsExpr;
      ghost var whole := ScanExpr(text, position, depth);
      ghost var start := position;
      ExprBegins(text, start, depth);
      ok := Term(depth);
      if !ok {
        return;
      }
      ghost var seen := VarsTerm(ScanTerm(text, start, depth).tree);
      while position < |text| && IsAdd(text[position])
        invariant start < position && Valid() && vars == old(vars) + seen
        invariant ExprGoesOn(whole, seen, text, position, depth)
        decreases |text| - position
      {
        position := position + 1;
        ghost var from := position;
        ExprStep(whole, seen, text, from - 1, depth);
        ok := Term(depth);
        if !ok {
          return;
        }
        seen := seen + VarsTerm(ScanTerm(text, from, depth).tree);
      }
    }

    method Term(depth: nat) returns (ok: bool)
      requires Valid()
      modifies this
      ensures Valid()
      ensures var s := ScanTerm(text, old(position), depth);
              ok == s.At? && (ok ==> position == s.end && vars == old(vars) + VarsTerm(s.tree))
      decreases |text| - position, 2
    {
      hide ScanTerm, ScanFactor, VarsTerm;
      ghost var whole := ScanTerm(text, position, depth);
      ghost var start := position;
      TermBegins(text, start, depth);
      ok := Factor(depth);
      if !ok {
        return;
      }
      ghost var seen := VarsFactor(ScanFactor(text, start, depth).tree);
      while position < |text| && IsMul(text[position])
        invariant start < position && Valid() && vars == old(vars) + seen
        invariant TermGoesOn(whole, seen, text, position, depth)
        decreases |text| - position
      {
        position := position + 1;
        ghost var from := position;
        TermStep(whole, seen, text, from - 1, depth);
        ok := Factor(depth);
        if !ok {
          return;
        }
        seen := seen + VarsFactor(ScanFactor(text, from, depth).tree);
      }
    }

    method Factor(depth: nat) returns (ok: bool)
      requires Valid()
      modifies this
      ensures Valid()
      ensures var s := ScanFactor(text, old(position), depth);
              ok == s.At? && (ok ==> position == s.end && vars == old(vars) + VarsFactor(s.tree))
      decreases |text| - position, 1
    {
      if position >= |text| || depth > MAX_DEPTH {
        return false;
      }
      var current := text[position];
      if IsAdd(current) {
        position := position + 1;
        ok := Factor(depth + 1);
        return;
      }
      if current == '[' || current == '(' {
        position := position + 1;
        var close := if current == '[' then ']' else ')';
        var inner := Expression(depth + 1);
        if !inner || position >= |text| || text[position] != close {
          return false;
        }
        position := position + 1;
        return true;
      }
      if current == '#' {
        ok := VariableReference();
        return;
      }
      ok := Decimal();
      assert vars == old(vars) + {};
    }

    method VariableReference() returns (ok: bool)
      requires Valid() && position < |text| && text[position] == '#'
      modifies this
      ensures Valid()
      ensures ok <==> old(position) + 1 < |text| && (text[old(position) + 1] == '1' || text[old(position) + 1] == '2')
      ensures ok ==> position == old(position) + 2
                     && vars == old(vars) + {if text[old(position) + 1] == '2' then 2 else 1}
    {
      position := position + 1;
      if position >= |text| || (text[position] != '1' && text[position] != '2') {
        return false;
      }
      ghost var which: nat := if text[position] == '2' then 2 else 1;
      MaskUnion(vars, which);
      vars := vars + {which};
      readMask := readMask | (if text[position] == '1' then 1 else 2);
      position := position + 1;
      return true;
    }

    method Decimal() returns (digit: bool)
      requires Valid() && position < |text|
      modifies this`position
      ensures Valid()
      ensures var s := ScanNumber(text, old(position)); digit == s.At? && (digit ==> position == s.end)
    {
      digit := false;
      ghost var start := position;
      while position < |text| && IsDigit(text[position])
        invariant start <= position <= |text| && (digit <==> start < position)
        invariant DigitRun(text, start) == DigitRun(text, position)
      {
        digit := true;
        position := position + 1;
      }
      if position < |text| && text[position] == '.' {
        position := position + 1;
        ghost var after := position;
        while position < |text| && IsDigit(text[position])
          invariant after <= position <= |text| && (digit <==> start + 1 < after || after < position)
          invariant DigitRun(text, after) == DigitRun(text, position)
        {
          digit := true;
          position := position + 1;
        }
      }
    }
  }

  // -------------------------------------- a successful scan prints its tree

  /** A stretch of text is what stands before one of its characters, that character, and the rest. */
  lemma Cut(t: string, p: nat, m: nat, e: nat)
    requires p <= m < e <= |t|
    ensures t[p..m] + [t[m]] + t[m + 1..e] == t[p..e]
  {
  }

  lemma Associate(a: string, b: string, c: string)
    ensures a + b + c == a + (b + c)
  {
  }

  lemma Head(t: string, p: nat, e: nat)
    requires p < e <= |t|
    ensures [t[p]] + t[p + 1..e] == t[p..e]
  {
  }

  lemma Between(t: string, p: nat, e: nat)
    requires p + 1 < e <= |t|
    ensures [t[p]] + t[p + 1..e - 1] + [t[e - 1]] == t[p..e]
  {
  }

  lemma {:induction false} ExprSound(t: string, p: nat, d: nat)
    requires p <= |t| && ScanExpr(t, p, d).At?
    ensures var s := ScanExpr(t, p, d);
            WfExpr(s.tree) && PrintExpr(s.tree) == t[p..s.end] && d + NestExpr(s.tree) <= MAX_DEPTH
    decreases |t| - p, 3
  {
    TermSound(t, p, d);
    var first := ScanTerm(t, p, d);
    if first.end < |t| && IsAdd(t[first.end]) {
      ExprSound(t, first.end + 1, d);
      Cut(t, p, first.end, ScanExpr(t, p, d).end);
    }
  }

  lemma {:induction false} TermSound(t: string, p: nat, d: nat)
    requires p <= |t| && ScanTerm(t, p, d).At?
    ensures var s := ScanTerm(t, p, d);
            WfTerm(s.tree) && PrintTerm(s.tree) == t[p..s.end] && d + NestTerm(s.tree) <= MAX_DEPTH
    decreases |t| - p, 2
  {
    FactorSound(t, p, d);
    var first := ScanFactor(t, p, d);
    if first.end < |t| && IsMul(t[first.end]) {
      TermSound(t, first.end + 1, d);
      Cut(t, p, first.end, ScanTerm(t, p, d).end);
    }
  }

  lemma {:induction false} FactorSound(t: string, p: nat, d: nat)
    requires p <= |t| && ScanFactor(t, p, d).At?
    ensures var s := ScanFactor(t, p, d);
            WfFactor(s.tree) && PrintFactor(s.tree) == t[p..s.end] && d + NestFactor(s.tree) <= MAX_DEPTH
    decreases |t| - p, 1
  {
    var e := ScanFactor(t, p, d).end;
    if IsAdd(t[p]) {
      FactorSound(t, p + 1, d + 1);
      Head(t, p, e);
    } else if t[p] == '[' || t[p] == '(' {
      ExprSound(t, p + 1, d + 1);
      Between(t, p, e);
    } else if t[p] == '#' {
      assert t[p..p + 2] == [t[p], t[p + 1]];
    } else {
      NumberSound(t, p);
    }
  }

  lemma NumberSound(t: string, p: nat)
    requires p <= |t| && ScanNumber(t, p).At?
    ensures var s := ScanNumber(t, p);
            s.tree.Number? && WfFactor(s.tree) && PrintFactor(s.tree) == t[p..s.end]
  {
    var m := DigitRun(t, p);
    if m < |t| && t[m] == '.' {
      var e := DigitRun(t, m + 1);
      Cut(t, p, m, e);
      Associate(t[p..m], ['.'], t[m + 1..e]);
    }
  }

  // ------------------------------------ a printed tree is scanned to itself

  /** What stands at position p lets a number, a factor, a term or an expression end there. */
  predicate Ends(t: string, p: nat, open: bool, inTerm: bool) {
    p == |t| || (p < |t| && (IsClose(t[p]) || (open && IsAdd(t[p])) || (inTerm && IsMul(t[p]))))
  }

  lemma {:induction false} DigitRunIs(t: string, p: nat, e: nat)
    requires p <= e <= |t| && Digits(t[p..e]) && (e < |t| ==> !IsDigit(t[e]))
    ensures DigitRun(t, p) == e
    decreases e - p
  {
    if p < e {
      assert t[p] == t[p..e][0];
      assert t[p + 1..e] == t[p..e][1..];
      DigitRunIs(t, p + 1, e);
    }
  }

  /** Where a + [c] + b stands, a, c and b stand one after the other. */
  lemma Split(t: string, p: nat, e: nat, a: string, c: char, b: string)
    requires p <= e <= |t| && t[p..e] == a + [c] + b
    ensures p + |a| < e && t[p..p + |a|] == a && t[p + |a|] == c && t[p + |a| + 1..e] == b
  {
    var s := t[p..e];
    assert s[..|a|] == a && s[|a| + 1..] == b;
    assert s[|a|] == c;
  }

  lemma SplitHead(t: string, p: nat, e: nat, c: char, b: string)
    requires p <= e <= |t| && t[p..e] == [c] + b
    ensures p < e && t[p] == c && t[p + 1..e] == b
  {
    var s := t[p..e];
    assert s[0] == c && s[1..] == b;
  }

  lemma Enclosed(t: string, p: nat, e: nat, open: char, b: string, close: char)
    requires p <= e <= |t| && t[p..e] == [open] + b + [close]
    ensures p + 1 < e && t[p] == open && t[p + 1..e - 1] == b && t[e - 1] == close
  {
    var s := t[p..e];
    assert s[0] == open && s[|s| - 1] == close;
    forall i | 0 <= i < |b| ensures t[p + 1 + i] == b[i] {
      assert s[i + 1] == b[i];
    }
  }

  lemma Pair(t: string, p: nat, e: nat, a: char, b: char)
    requires p <= e <= |t| && t[p..e] == [a, b]
    ensures e == p + 2 && t[p] == a && t[p + 1] == b
  {
    var s := t[p..e];
    assert s[0] == a && s[1] == b;
  }

  lemma NumberStart(x: Factor, t: string, p: nat, e: nat)
    requires x.Number? && WfFactor(x) && p <= e <= |t| && t[p..e] == PrintFactor(x)
    ensures p < e && (IsDigit(t[p]) || t[p] == '.')
  {
    var printed := PrintFactor(x);
    if |x.whole| > 0 {
      assert printed[0] == x.whole[0];
    } else {
      assert x.point && printed[0] == '.';
    }
    assert t[p] == t[p..e][0];
  }

  lemma {:induction false} ExprComplete(x: Expr, t: string, p: nat, e: nat, d: nat)
    requires WfExpr(x) && p <= e <= |t| && t[p..e] == PrintExpr(x) && d + NestExpr(x) <= MAX_DEPTH
    requires Ends(t, e, false, false)
    ensures ScanExpr(t, p, d) == At(e, x)
    decreases x
  {
    match x
    case Single(term) =>
      TermComplete(term, t, p, e, d);
    case Sum(term, op, rest) =>
      var a := PrintTerm(term);
      Split(t, p, e, a, AddText(op), PrintExpr(rest));
      TermComplete(term, t, p, p + |a|, d);
      ExprComplete(rest, t, p + |a| + 1, e, d);
  }

  lemma {:induction false} TermComplete(x: Term, t: string, p: nat, e: nat, d: nat)
    requires WfTerm(x) && p <= e <= |t| && t[p..e] == PrintTerm(x) && d + NestTerm(x) <= MAX_DEPTH
    requires Ends(t, e, true, false)
    ensures ScanTerm(t, p, d) == At(e, x)
    decreases x
  {
    match x
    case Only(factor) =>
      FactorComplete(factor, t, p, e, d);
    case Product(factor, op, rest) =>
      var a := PrintFactor(factor);
      Split(t, p, e, a, MulText(op), PrintTerm(rest));
      FactorComplete(factor, t, p, p + |a|, d);
      TermComplete(rest, t, p + |a| + 1, e, d);
  }

  lemma {:induction false} FactorComplete(x: Factor, t: string, p: nat, e: nat, d: nat)
    requires WfFactor(x) && p <= e <= |t| && t[p..e] == PrintFactor(x) && d + NestFactor(x) <= MAX_DEPTH
    requires Ends(t, e, true, true)
    ensures ScanFactor(t, p, d) == At(e, x)
    decreases x
  {
    match x
    case Signed(op, operand) =>
      SplitHead(t, p, e, AddText(op), PrintFactor(operand));
      FactorComplete(operand, t, p + 1, e, d + 1);
    case Bracket(square, inside) =>
      Enclosed(t, p, e, OpenText(square), PrintExpr(inside), CloseText(square));
      ExprComplete(inside, t, p + 1, e - 1, d + 1);
    case Variable(second) =>
      Pair(t, p, e, '#', if second then '2' else '1');
    case Number(whole, point, fraction) =>
      NumberStart(x, t, p, e);
      NumberComplete(x, t, p, e);
  }

  lemma NumberComplete(x: Factor, t: string, p: nat, e: nat)
    requires x.Number? && WfFactor(x) && p <= e <= |t| && t[p..e] == PrintFactor(x)
    requires Ends(t, e, true, true)
    ensures ScanNumber(t, p) == At(e, x)
  {
    if x.point {
      Associate(x.whole, ['.'], x.fraction);
      Split(t, p, e, x.whole, '.', x.fraction);
      PointedComplete(x, t, p, p + |x.whole|, e);
    } else {
      assert x.whole + [] == x.whole;
      DigitRunIs(t, p, e);
    }
  }

  lemma PointedComplete(x: Factor, t: string, p: nat, m: nat, e: nat)
    requires x.Number? && x.point && WfFactor(x) && p <= m < e <= |t| && Ends(t, e, true, true)
    requires t[p..m] == x.whole && t[m] == '.' && t[m + 1..e] == x.fraction
    ensures ScanNumber(t, p) == At(e, x)
  {
    DigitRunIs(t, p, m);
    DigitRunIs(t, m + 1, e);
  }

  // ------------------------------------------------------------ main results

  /** The recogniser's verdict: what Arithmetic.Parse returns true for. */
  predicate Accepts(t: string) {
    1 <= |t| <= MAX_LENGTH && ScanExpr(t, 0, 0).At? && ScanExpr(t, 0, 0).end == |t|
  }

  /** x is a derivation of the text t within the nesting bound. */
  predicate Derives(x: Expr, t: string) {
    WfExpr(x) && PrintExpr(x) == t && NestExpr(x) <= MAX_DEPTH
  }

  /** Scanning a printed tree gives the tree back, so the mask is the variables of that very tree. */
  lemma ScanOfPrint(x: Expr, t: string)
    requires Derives(x, t)
    ensures ScanExpr(t, 0, 0) == At(|t|, x)
  {
    assert t[0..|t|] == t;
    ExprComplete(x, t, 0, |t|, 0);
  }

  /** The recogniser accepts exactly the texts of length 1 to 64 that the grammar derives. */
  lemma RecogniserIsGrammar(t: string)
    ensures Accepts(t) <==> 1 <= |t| <= MAX_LENGTH && exists x :: Derives(x, t)
  {
    if Accepts(t) {
      ExprSound(t, 0, 0);
      assert t[0..|t|] == t;
      assert Derives(ScanExpr(t, 0, 0).tree, t);
    }
    if x :| Derives(x, t) {
      ScanOfPrint(x, t);
    }
  }

  /** The grammar is unambiguous within the bound: two derivations of one text are the same tree. */
  lemma DerivationIsUnique(x: Expr, y: Expr, t: string)
    requires Derives(x, t) && Derives(y, t)
    ensures x == y
  {
    ScanOfPrint(x, t);
    ScanOfPrint(y, t);
  }

  /** The returned mask holds bit i exactly when the derivation reads that variable. */
  method ParseText(t: string) returns (ok: bool, mask: bv8)
    ensures ok <==> 1 <= |t| <= MAX_LENGTH && exists x :: Derives(x, t)
    ensures ok ==> forall x :: Derives(x, t) ==> mask == MaskOf(VarsExpr(x))
    ensures !ok ==> mask == 0
  {
    var parser := new Arithmetic(t);
    ok, mask := parser.Parse();
    RecogniserIsGrammar(t);
    forall x | Derives(x, t) ensures ok ==> mask == MaskOf(VarsExpr(x)) {
      ScanOfPrint(x, t);
    }
  }

  /** The mask distinguishes all four sets of variables that a tree can read. */
  lemma MaskIsExact(x: Expr, y: Expr)
    ensures MaskOf(VarsExpr(x)) == MaskOf(VarsExpr(y)) <==> VarsExpr(x) == VarsExpr(y)
  {
    VarsBound(x);
    VarsBound(y);
    var a, b := VarsExpr(x), VarsExpr(y);
    if MaskOf(a) == MaskOf(b) {
      assert 1 in a <==> 1 in b;
      assert 2 in a <==> 2 in b;
      assert forall v :: v in a <==> v in b;
    }
  }

  lemma VarsBound(x: Expr)
    ensures VarsExpr(x) <= {1, 2}
    decreases x
  {
    TermVarsBound(x.term);
    if x.Sum? {
      VarsBound(x.rest);
    }
  }

  lemma TermVarsBound(x: Term)
    ensures VarsTerm(x) <= {1, 2}
    decreases x
  {
    FactorVarsBound(x.factor);
    if x.Product? {
      TermVarsBound(x.rest);
    }
  }

  lemma FactorVarsBound(x: Factor)
    ensures VarsFactor(x) <= {1, 2}
    decreases x
  {
    match x
    case Signed(_, operand) => FactorVarsBound(operand);
    case Bracket(_, inside) => VarsBound(inside);
    case Variable(_) =>
    case Number(_, _, _) =>
  }
}
