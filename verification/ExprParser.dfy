/** The recursive-descent expression parser: one comparison per level, left-associative arithmetic, and
    a `<` that means attribute access only right after an identifier. */
module ExprParser {
  import opened Bytecode
  import opened BasicAst

  /** `glued` marks a `<` that starts where the identifier before it ends. */
  datatype Token =
    | IntTok(n: int) | FloatTok(d: real) | StrTok(s: string) | IdentTok(name: string)
    | PlusTok | MinusTok | StarTok | SlashTok
    | EqTok | NeTok | LtTok(glued: bool) | LeTok | GtTok | GeTok
    | LParenTok | RParenTok | CommaTok | EndTok

  /** The tokenizer's output: one End token, at the end; only a `<` after an identifier can be glued. */
  predicate Ended(ts: seq<Token>) {
    && |ts| > 0 && ts[|ts| - 1].EndTok?
    && (forall i | 0 <= i < |ts| - 1 :: !ts[i].EndTok?)
  }

  predicate WellGlued(ts: seq<Token>) {
    forall i | 0 <= i < |ts| && ts[i] == LtTok(true) :: i > 0 && ts[i - 1].IdentTok?
  }

  predicate IsAddTok(t: Token) {
    t.PlusTok? || t.MinusTok?
  }

  predicate IsMulTok(t: Token) {
    t.StarTok? || t.SlashTok?
  }

  predicate IsComparisonTok(t: Token) {
    t.EqTok? || t.NeTok? || t.LtTok? || t.LeTok? || t.GtTok? || t.GeTok?
  }

  function OpFor(t: Token): BinaryOp {
    if t.PlusTok? then AddOp
    else if t.MinusTok? then SubtractOp
    else if t.StarTok? then MultiplyOp
    else if t.SlashTok? then DivideOp
    else if t.EqTok? then EqualOp
    else if t.NeTok? then NotEqualOp
    else if t.LtTok? then LessThanOp
    else if t.LeTok? then LessOrEqualOp
    else if t.GtTok? then GreaterThanOp
    else if t.GeTok? then GreaterOrEqualOp
    else AddOp
  }

  function TokenFor(op: BinaryOp): Token {
    match op
    case AddOp => PlusTok
    case SubtractOp => MinusTok
    case MultiplyOp => StarTok
    case DivideOp => SlashTok
    case EqualOp => EqTok
    case NotEqualOp => NeTok
    case LessThanOp => LtTok(false)
    case LessOrEqualOp => LeTok
    case GreaterThanOp => GtTok
    case GreaterOrEqualOp => GeTok
  }

  predicate IsBuiltin(name: string) {
    BuiltinArity(name).Some?
  }

  // ---------------------------------------------------------------------------------------------
  // The parser as functions of the position
  // ---------------------------------------------------------------------------------------------

  datatype Parsed = Ok(e: Expr, next: nat) | Error
  datatype ParsedArgs = ArgList(args: seq<Expr>, next: nat) | ArgError

  function ParseComparison(ts: seq<Token>, p: nat): (r: Parsed)
    requires Ended(ts) && p < |ts|
    ensures r.Ok? ==> p < r.next < |ts|
    decreases |ts| - p, 6
  {
    match ParseAddSub(ts, p)
    case Error => Error
    case Ok(left, q) =>
      if !IsComparisonTok(ts[q]) then Ok(left, q)
      else
        match ParseAddSub(ts, q + 1)
        case Error => Error
        case Ok(right, q') => Ok(Binary(OpFor(ts[q]), left, right), q')
  }

  function ParseAddSub(ts: seq<Token>, p: nat): (r: Parsed)
    requires Ended(ts) && p < |ts|
    ensures r.Ok? ==> p < r.next < |ts|
    decreases |ts| - p, 5
  {
    match ParseMulDiv(ts, p)
    case Error => Error
    case Ok(left, q) => AddTail(ts, left, q)
  }

  function AddTail(ts: seq<Token>, left: Expr, q: nat): (r: Parsed)
    requires Ended(ts) && q < |ts|
    ensures r.Ok? ==> q <= r.next < |ts|
    decreases |ts| - q, 4
  {
    if !IsAddTok(ts[q]) then Ok(left, q)
    else
      match ParseMulDiv(ts, q + 1)
      case Error => Error
      case Ok(right, q') => AddTail(ts, Binary(OpFor(ts[q]), left, right), q')
  }

  function ParseMulDiv(ts: seq<Token>, p: nat): (r: Parsed)
    requires Ended(ts) && p < |ts|
    ensures r.Ok? ==> p < r.next < |ts|
    decreases |ts| - p, 3
  {
    match ParseUnary(ts, p)
    case Error => Error
    case Ok(left, q) => MulTail(ts, left, q)
  }

  function MulTail(ts: seq<Token>, left: Expr, q: nat): (r: Parsed)
    requires Ended(ts) && q < |ts|
    ensures r.Ok? ==> q <= r.next < |ts|
    decreases |ts| - q, 2
  {
    if !IsMulTok(ts[q]) then Ok(left, q)
    else
      match ParseUnary(ts, q + 1)
      case Error => Error
      case Ok(right, q') => MulTail(ts, Binary(OpFor(ts[q]), left, right), q')
  }

  function ParseUnary(ts: seq<Token>, p: nat): (r: Parsed)
    requires Ended(ts) && p < |ts|
    ensures r.Ok? ==> p < r.next < |ts|
    decreases |ts| - p, 1
  {
    if ts[p].MinusTok? then
      match ParseUnary(ts, p + 1)
      case Error => Error
      case Ok(x, q) => Ok(Negate(x), q)
    else ParsePrimary(ts, p)
  }

  function ParsePrimary(ts: seq<Token>, p: nat): (r: Parsed)
    requires Ended(ts) && p < |ts|
    ensures r.Ok? ==> p < r.next < |ts|
    decreases |ts| - p, 0
  {
    match ts[p]
    case IntTok(n) => Ok(IntLiteral(n), p + 1)
    case FloatTok(d) => Ok(FloatLiteral(d), p + 1)
    case StrTok(s) => Ok(StringLiteral(s), p + 1)
    case IdentTok(name) =>
      if ts[p + 1].LParenTok? then
        if IsBuiltin(Uppercase(name)) then ParseCall(ts, p) else ParseSubscript(ts, p)
      else if ts[p + 1] == LtTok(true) then ParseAttribute(ts, p)
      else Ok(Identifier(name), p + 1)
    case LParenTok =>
      if ts[p + 1].RParenTok? then Error
      else
        (match ParseAddSub(ts, p + 1)
         case Error => Error
         case Ok(x, q) => if ts[q].RParenTok? then Ok(Grouped(x), q + 1) else Error)
    case _ => Error
  }

  function ParseSubscript(ts: seq<Token>, p: nat): (r: Parsed)
    requires Ended(ts) && p + 1 < |ts| && ts[p].IdentTok? && ts[p + 1].LParenTok?
    ensures r.Ok? ==> p < r.next < |ts|
    decreases |ts| - p - 1, 10
  {
    match ParseAddSub(ts, p + 2)
    case Error => Error
    case Ok(i, q) => if ts[q].RParenTok? then Ok(Subscript(ts[p].name, i), q + 1) else Error
  }

  function ParseAttribute(ts: seq<Token>, p: nat): (r: Parsed)
    requires Ended(ts) && p + 1 < |ts| && ts[p].IdentTok? && ts[p + 1].LtTok?
    ensures r.Ok? ==> p < r.next < |ts|
    decreases |ts| - p - 1, 10
  {
    if ts[p + 2].CommaTok? || ts[p + 2].GtTok? || ts[p + 2].EndTok? then Error
    else
      match ParseAddSub(ts, p + 2)
      case Error => Error
      case Ok(a, q) =>
        if ts[q].GtTok? then Ok(AttributeAccess(ts[p].name, a, None), q + 1)
        else if !ts[q].CommaTok? || ts[q + 1].GtTok? || ts[q + 1].EndTok? then Error
        else
          match ParseAddSub(ts, q + 1)
          case Error => Error
          case Ok(v, q') => if ts[q'].GtTok? then Ok(AttributeAccess(ts[p].name, a, Some(v)), q' + 1) else Error
  }

  function ParseCall(ts: seq<Token>, p: nat): (r: Parsed)
    requires Ended(ts) && p + 1 < |ts| && ts[p].IdentTok? && ts[p + 1].LParenTok? && IsBuiltin(Uppercase(ts[p].name))
    ensures r.Ok? ==> p < r.next < |ts|
    decreases |ts| - p - 1, 10
  {
    var name := Uppercase(ts[p].name);
    var bounds := BuiltinArity(name).value;
    if ts[p + 2].RParenTok? then
      if bounds.0 > 0 then Error else Ok(FunctionCall(name, []), p + 3)
    else
      match ParseArgs(ts, p + 2)
      case ArgError => Error
      case ArgList(args, q) =>
        if ts[q].RParenTok? && bounds.0 <= |args| <= bounds.1 then Ok(FunctionCall(name, args), q + 1) else Error
  }

  /** One or more arguments separated by commas. */
  function ParseArgs(ts: seq<Token>, p: nat): (r: ParsedArgs)
    requires Ended(ts) && p < |ts|
    ensures r.ArgList? ==> p < r.next < |ts| && |r.args| > 0
    decreases |ts| - p, 7
  {
    match ParseComparison(ts, p)
    case Error => ArgError
    case Ok(e, q) =>
      if !ts[q].CommaTok? then ArgList([e], q)
      else if ts[q + 1].RParenTok? then ArgError
      else
        match ParseArgs(ts, q + 1)
        case ArgError => ArgError
        case ArgList(rest, q') => ArgList([e] + rest, q')
  }

  /** The whole token list must be one expression. */
  function Parse(ts: seq<Token>): Option<Expr>
    requires Ended(ts)
  {
    if |ts| == 1 then None
    else
      match ParseComparison(ts, 0)
      case Error => None
      case Ok(e, q) => if ts[q].EndTok? then Some(e) else None
  }

  // ---------------------------------------------------------------------------------------------
  // Trees and their tokens
  // ---------------------------------------------------------------------------------------------

  function Flatten(e: Expr): (r: seq<Token>)
    decreases e, 1
  {
    match e
    case IntLiteral(n) => [IntTok(n)]
    case FloatLiteral(d) => [FloatTok(d)]
    case StringLiteral(s) => [StrTok(s)]
    case Identifier(name) => [IdentTok(name)]
    case Negate(x) => [MinusTok] + Flatten(x)
    case Binary(op, l, r) => Flatten(l) + [TokenFor(op)] + Flatten(r)
    case Grouped(x) => [LParenTok] + Flatten(x) + [RParenTok]
    case Subscript(name, i) => [IdentTok(name), LParenTok] + Flatten(i) + [RParenTok]
    case AttributeAccess(name, a, v) =>
      [IdentTok(name), LtTok(true)] + Flatten(a) + (if v.Some? then [CommaTok] + Flatten(v.value) else []) + [GtTok]
    case DictField(token) => []
    case FunctionCall(name, args) => [IdentTok(name), LParenTok] + FlattenArgs(args) + [RParenTok]
  }

  function FlattenArgs(args: seq<Expr>): seq<Token>
    decreases args, 0
  {
    if args == [] then []
    else if |args| == 1 then Flatten(args[0])
    else Flatten(args[0]) + [CommaTok] + FlattenArgs(args[1..])
  }

  /** Levels of the grammar, from a whole expression down to a primary. */
  datatype Level = Comparison | Sum | Product | Signed | Primary

  /** The tree has the shape the grammar gives at that level: at most one comparison, arithmetic nested
      to the left, arities respected, and no DICT token. */
  predicate Shaped(e: Expr, level: Level)
    decreases e, 1
  {
    match e
    case Binary(op, l, r) =>
      if op.AddOp? || op.SubtractOp? then (level.Comparison? || level.Sum?) && Shaped(l, Sum) && Shaped(r, Product)
      else if op.MultiplyOp? || op.DivideOp? then
        (level.Comparison? || level.Sum? || level.Product?) && Shaped(l, Product) && Shaped(r, Signed)
      else level.Comparison? && Shaped(l, Sum) && Shaped(r, Sum)
    case Negate(x) => !level.Primary? && Shaped(x, Signed)
    case Grouped(x) => Shaped(x, Sum)
    case Subscript(name, i) => !IsBuiltin(Uppercase(name)) && Shaped(i, Sum)
    case AttributeAccess(name, a, v) => Shaped(a, Sum) && (v.Some? ==> Shaped(v.value, Sum))
    case FunctionCall(name, args) =>
      && Uppercase(name) == name && IsBuiltin(name)
      && BuiltinArity(name).value.0 <= |args| <= BuiltinArity(name).value.1
      && ShapedArgs(args)
    case DictField(_) => false
    case _ => true
  }

  predicate ShapedArgs(args: seq<Expr>)
    decreases args, 0
  {
    args == [] || (Shaped(args[0], Comparison) && ShapedArgs(args[1..]))
  }

  // ---------------------------------------------------------------------------------------------
  // Every shaped tree is read back from its tokens
  // ---------------------------------------------------------------------------------------------

  /** `part` stands at `p`, and something follows it. */
  predicate Here(ts: seq<Token>, p: nat, part: seq<Token>) {
    p + |part| < |ts| && ts[p..p + |part|] == part
  }

  lemma HereSplit(ts: seq<Token>, p: nat, a: seq<Token>, b: seq<Token>)
    requires Here(ts, p, a + b) && b != []
    ensures Here(ts, p, a) && Here(ts, p + |a|, b) && ts[p + |a|] == b[0]
  {
    var whole := a + b;
    assert ts[p..p + |a|] == whole[..|a|];
    assert ts[p + |a|..p + |a| + |b|] == whole[|a|..];
    assert ts[p + |a|] == ts[p + |a|..p + |a| + |b|][0];
  }

  lemma HereOne(ts: seq<Token>, p: nat, t: Token)
    requires Here(ts, p, [t])
    ensures ts[p] == t && p + 1 < |ts|
  {
    assert ts[p..p + 1][0] == ts[p];
  }

  predicate Starts(t: Token) {
    t.IntTok? || t.FloatTok? || t.StrTok? || t.IdentTok? || t.MinusTok? || t.LParenTok?
  }

  lemma {:induction false} StartsRight(e: Expr, level: Level)
    requires Shaped(e, level)
    ensures Flatten(e) != [] && Starts(Flatten(e)[0])
    decreases e
  {
    hide IsBuiltin, BuiltinArity, Uppercase;
    if e.Binary? {
      StartsRight(e.left, if e.op.MultiplyOp? || e.op.DivideOp? then Product else Sum);
    }
  }

  /** A token at which an expression of that level ends. */
  predicate Stops(t: Token, level: Level) {
    && !t.LParenTok? && t != LtTok(true)
    && (level.Product? || level.Sum? || level.Comparison? ==> !IsMulTok(t))
    && (level.Sum? || level.Comparison? ==> !IsAddTok(t))
    && (level.Comparison? ==> !IsComparisonTok(t))
  }

  lemma {:induction false} ReadsComparison(ts: seq<Token>, p: nat, e: Expr)
    requires Ended(ts) && Shaped(e, Comparison) && Here(ts, p, Flatten(e)) && Stops(ts[p + |Flatten(e)|], Comparison)
    ensures ParseComparison(ts, p) == Ok(e, p + |Flatten(e)|)
    decreases e, 5
  {
    hide Here, Flatten, Ended, ParseAddSub, IsBuiltin, BuiltinArity;
    if e.Binary? && !IsArithmetic(e.op) {
      var l, r, t := Flatten(e.left), Flatten(e.right), TokenFor(e.op);
      BinaryHere(ts, p, e);
      ReadsSum(ts, p, e.left);
      ReadsSum(ts, p + |l| + 1, e.right);
    } else {
      SameShape(e);
      ReadsSum(ts, p, e);
    }
    assert p < |ts| by { HereInside(ts, p, Flatten(e)); }
  }

  lemma HereInside(ts: seq<Token>, p: nat, part: seq<Token>)
    requires Here(ts, p, part)
    ensures p + |part| < |ts|
  {
  }

  lemma SameShape(e: Expr)
    requires Shaped(e, Comparison) && !(e.Binary? && !IsArithmetic(e.op))
    ensures Shaped(e, Sum)
  {
    hide IsBuiltin, BuiltinArity;
  }

  /** The three parts of a binary tree in the token list. */
  lemma BinaryHere(ts: seq<Token>, p: nat, e: Expr)
    requires e.Binary? && Here(ts, p, Flatten(e)) && (exists level :: Shaped(e, level))
    ensures var l, r, t := Flatten(e.left), Flatten(e.right), TokenFor(e.op);
            && Here(ts, p, l) && ts[p + |l|] == t && Here(ts, p + |l| + 1, r) && |Flatten(e)| == |l| + 1 + |r|
  {
    hide Here, IsBuiltin, BuiltinArity, Uppercase;
    var l, r, t := Flatten(e.left), Flatten(e.right), TokenFor(e.op);
    var rightLevel := if e.op.AddOp? || e.op.SubtractOp? then Product else if IsArithmetic(e.op) then Signed else Sum;
    assert Shaped(e.right, rightLevel);
    StartsRight(e.right, rightLevel);
    assert Flatten(e) == l + ([t] + r);
    HereSplit(ts, p, l, [t] + r);
    HereSplit(ts, p + |l|, [t], r);
  }

  /** Reading a sum reaches the point where more terms may follow, with the whole tree on the left. */
  lemma {:induction false} ReadsSum(ts: seq<Token>, p: nat, e: Expr)
    requires Ended(ts) && Shaped(e, Sum) && Here(ts, p, Flatten(e)) && Stops(ts[p + |Flatten(e)|], Product)
    ensures ParseAddSub(ts, p) == AddTail(ts, e, p + |Flatten(e)|)
    ensures !IsAddTok(ts[p + |Flatten(e)|]) ==> ParseAddSub(ts, p) == Ok(e, p + |Flatten(e)|)
    decreases e, 4
  {
    hide Here, Flatten, Ended, IsBuiltin, BuiltinArity, ParseMulDiv;
    HereInside(ts, p, Flatten(e));
    if e.Binary? && (e.op.AddOp? || e.op.SubtractOp?) {
      BinaryHere(ts, p, e);
      ReadsSum(ts, p, e.left);
      ReadsProduct(ts, p + |Flatten(e.left)| + 1, e.right);
    } else {
      assert Shaped(e, Product);
      ReadsProduct(ts, p, e);
    }
  }

  lemma {:induction false} ReadsProduct(ts: seq<Token>, p: nat, e: Expr)
    requires Ended(ts) && Shaped(e, Product) && Here(ts, p, Flatten(e)) && Stops(ts[p + |Flatten(e)|], Signed)
    ensures ParseMulDiv(ts, p) == MulTail(ts, e, p + |Flatten(e)|)
    ensures !IsMulTok(ts[p + |Flatten(e)|]) ==> ParseMulDiv(ts, p) == Ok(e, p + |Flatten(e)|)
    decreases e, 3
  {
    hide Here, Flatten, Ended, IsBuiltin, BuiltinArity, ParseUnary;
    HereInside(ts, p, Flatten(e));
    if e.Binary? {
      BinaryHere(ts, p, e);
      ReadsProduct(ts, p, e.left);
      ReadsSigned(ts, p + |Flatten(e.left)| + 1, e.right);
    } else {
      assert Shaped(e, Signed);
      ReadsSigned(ts, p, e);
    }
  }

  lemma {:induction false} ReadsSigned(ts: seq<Token>, p: nat, e: Expr)
    requires Ended(ts) && Shaped(e, Signed) && Here(ts, p, Flatten(e)) && Stops(ts[p + |Flatten(e)|], Signed)
    ensures ParseUnary(ts, p) == Ok(e, p + |Flatten(e)|)
    decreases e, 2
  {
    hide Here, Ended, IsBuiltin, BuiltinArity, ParsePrimary;
    HereInside(ts, p, Flatten(e));
    if e.Negate? {
      StartsRight(e.operand, Signed);
      HereSplit(ts, p, [MinusTok], Flatten(e.operand));
      HereOne(ts, p, MinusTok);
      ReadsSigned(ts, p + 1, e.operand);
    } else {
      assert Shaped(e, Primary);
      ReadsPrimary(ts, p, e);
      PrimaryStarts(ts, p, e);
    }
  }

  lemma PrimaryStarts(ts: seq<Token>, p: nat, e: Expr)
    requires Shaped(e, Primary) && Here(ts, p, Flatten(e))
    ensures !ts[p].MinusTok?
  {
    hide IsBuiltin, BuiltinArity;
    assert ts[p] == ts[p..p + |Flatten(e)|][0];
  }

  lemma {:induction false} ReadsPrimary(ts: seq<Token>, p: nat, e: Expr)
    requires Ended(ts) && Shaped(e, Primary) && Here(ts, p, Flatten(e)) && Stops(ts[p + |Flatten(e)|], Signed)
    ensures ParsePrimary(ts, p) == Ok(e, p + |Flatten(e)|)
    decreases e, 1
  {
    hide Here, IsBuiltin, BuiltinArity, ParseAddSub;
    HereInside(ts, p, Flatten(e));
    match e
    case Grouped(_) => ReadsGroup(ts, p, e);
    case Subscript(_, _) => ReadsSubscript(ts, p, e);
    case AttributeAccess(_, _, _) => ReadsAttribute(ts, p, e);
    case FunctionCall(_, _) => ReadsCall(ts, p, e);
    case IntLiteral(n) => HereOne(ts, p, IntTok(n));
    case FloatLiteral(d) => HereOne(ts, p, FloatTok(d));
    case StringLiteral(s) => HereOne(ts, p, StrTok(s));
    case Identifier(name) => HereOne(ts, p, IdentTok(name));
  }

  lemma {:induction false} ReadsGroup(ts: seq<Token>, p: nat, e: Expr)
    requires e.Grouped? && Ended(ts) && Shaped(e, Primary) && Here(ts, p, Flatten(e))
    ensures ParsePrimary(ts, p) == Ok(e, p + |Flatten(e)|)
    decreases e, 0
  {
    hide Here, IsBuiltin, BuiltinArity, ParseAddSub;
    var x := e.inner;
    var f := Flatten(x);
    StartsRight(x, Sum);
    assert Flatten(e) == [LParenTok] + (f + [RParenTok]);
    HereSplit(ts, p, [LParenTok], f + [RParenTok]);
    HereSplit(ts, p + 1, f, [RParenTok]);
    HereOne(ts, p, LParenTok);
    HereInside(ts, p + 1, f + [RParenTok]);
    ReadsSum(ts, p + 1, x);
  }

  /** A name, an opening token, an inner part and the rest. */
  lemma OpenedHere(ts: seq<Token>, p: nat, a: Token, b: Token, f: seq<Token>, tail: seq<Token>)
    requires Here(ts, p, [a, b] + f + tail) && tail != []
    ensures p + 2 + |f| + |tail| < |ts| && ts[p] == a && ts[p + 1] == b && Here(ts, p + 2, f)
    ensures Here(ts, p + 2 + |f|, tail) && ts[p + 2 + |f|] == tail[0] && (f != [] ==> ts[p + 2] == f[0])
  {
    hide Here;
    var ft := f + tail;
    assert [a, b] + f + tail == [a, b] + ft;
    HereSplit(ts, p, [a, b], ft);
    HereSplit(ts, p + 2, f, tail);
    HereInside(ts, p + 2 + |f|, tail);
    TwoHere(ts, p, a, b);
  }

  lemma TwoHere(ts: seq<Token>, p: nat, a: Token, b: Token)
    requires Here(ts, p, [a, b])
    ensures ts[p] == a && ts[p + 1] == b
  {
    assert ts[p..p + 2][0] == ts[p] && ts[p..p + 2][1] == ts[p + 1];
  }

  lemma {:induction false} ReadsSubscript(ts: seq<Token>, p: nat, e: Expr)
    requires e.Subscript? && Ended(ts) && Shaped(e, Primary) && Here(ts, p, Flatten(e))
    ensures ParsePrimary(ts, p) == Ok(e, p + |Flatten(e)|)
    decreases e, 0
  {
    hide Here, IsBuiltin, BuiltinArity, ParseAddSub;
    OpenedHere(ts, p, IdentTok(e.arrayName), LParenTok, Flatten(e.index), [RParenTok]);
    ReadsSum(ts, p + 2, e.index);
  }

  lemma AttributeHere(ts: seq<Token>, p: nat, e: Expr)
    requires e.AttributeAccess? && Shaped(e, Primary) && Here(ts, p, Flatten(e))
    ensures var f := Flatten(e.attr);
            var q := p + 2 + |f|;
            && q < |ts| && ts[p] == IdentTok(e.recordName) && ts[p + 1] == LtTok(true)
            && f != [] && ts[p + 2] == f[0] && Starts(f[0]) && Here(ts, p + 2, f)
            && (e.valueIndex.None? ==> ts[q].GtTok? && |Flatten(e)| == |f| + 3)
            && (e.valueIndex.Some? ==> ts[q].CommaTok? && Here(ts, q + 1, Flatten(e.valueIndex.value) + [GtTok]) &&
                                       |Flatten(e)| == |f| + 4 + |Flatten(e.valueIndex.value)|)
  {
    hide Here, IsBuiltin, BuiltinArity, Starts;
    var f := Flatten(e.attr);
    StartsRight(e.attr, Sum);
    if e.valueIndex.Some? {
      var tail := [CommaTok] + (Flatten(e.valueIndex.value) + [GtTok]);
      AttributeTail([IdentTok(e.recordName), LtTok(true)] + f, Flatten(e.valueIndex.value));
      OpenedHere(ts, p, IdentTok(e.recordName), LtTok(true), f, tail);
      HereSplit(ts, p + 2 + |f|, [CommaTok], Flatten(e.valueIndex.value) + [GtTok]);
    } else {
      assert [IdentTok(e.recordName), LtTok(true)] + f + [] == [IdentTok(e.recordName), LtTok(true)] + f;
      OpenedHere(ts, p, IdentTok(e.recordName), LtTok(true), f, [GtTok]);
    }
  }

  lemma AttributeTail(head: seq<Token>, v: seq<Token>)
    ensures head + ([CommaTok] + v) + [GtTok] == head + ([CommaTok] + (v + [GtTok]))
  {
  }

  lemma {:induction false} ReadsAttribute(ts: seq<Token>, p: nat, e: Expr)
    requires e.AttributeAccess? && Ended(ts) && Shaped(e, Primary) && Here(ts, p, Flatten(e))
    ensures ParsePrimary(ts, p) == Ok(e, p + |Flatten(e)|)
    decreases e, 0
  {
    hide Here, IsBuiltin, BuiltinArity, ParseAddSub, Flatten;
    AttributeHere(ts, p, e);
    ReadsSum(ts, p + 2, e.attr);
    if e.valueIndex.Some? {
      var q, g := p + 2 + |Flatten(e.attr)|, Flatten(e.valueIndex.value);
      StartsRight(e.valueIndex.value, Sum);
      HereSplit(ts, q + 1, g, [GtTok]);
      HereInside(ts, q + 1, g + [GtTok]);
      HereFirst(ts, q + 1, g);
      ReadsSum(ts, q + 1, e.valueIndex.value);
    }
  }

  lemma HereFirst(ts: seq<Token>, p: nat, part: seq<Token>)
    requires Here(ts, p, part) && part != []
    ensures p < |ts| && ts[p] == part[0]
  {
    assert ts[p..p + |part|][0] == ts[p];
  }

  lemma {:induction false} ReadsCall(ts: seq<Token>, p: nat, e: Expr)
    requires e.FunctionCall? && Ended(ts) && Shaped(e, Primary) && Here(ts, p, Flatten(e))
    ensures ParsePrimary(ts, p) == Ok(e, p + |Flatten(e)|)
    decreases e, 0
  {
    hide Here, IsBuiltin, ParseArgs, Uppercase, BuiltinArity;
    OpenedHere(ts, p, IdentTok(e.builtin), LParenTok, FlattenArgs(e.args), [RParenTok]);
    if e.args != [] {
      StartsRight(e.args[0], Comparison);
      assert FlattenArgs(e.args)[0] == Flatten(e.args[0])[0];
      ReadsArgs(ts, p + 2, e.args);
    }
  }

  lemma ArgsHere(ts: seq<Token>, p: nat, args: seq<Expr>)
    requires |args| > 1 && ShapedArgs(args) && Here(ts, p, FlattenArgs(args))
    ensures var f, g := Flatten(args[0]), FlattenArgs(args[1..]);
            && Here(ts, p, f) && p + |f| + 1 < |ts| && ts[p + |f|].CommaTok?
            && Here(ts, p + |f| + 1, g) && Starts(ts[p + |f| + 1]) && |FlattenArgs(args)| == |f| + 1 + |g|
  {
    hide Here, Flatten, Shaped, Starts;
    var f, rest := Flatten(args[0]), args[1..];
    var g := FlattenArgs(rest);
    assert FlattenArgs(args) == f + ([CommaTok] + g);
    StartsRight(rest[0], Comparison);
    assert g != [] && g[0] == Flatten(rest[0])[0];
    HereSplit(ts, p, f, [CommaTok] + g);
    HereSplit(ts, p + |f|, [CommaTok], g);
    HereInside(ts, p + |f| + 1, g);
  }

  lemma {:induction false} ReadsArgs(ts: seq<Token>, p: nat, args: seq<Expr>)
    requires Ended(ts) && args != [] && ShapedArgs(args) && Here(ts, p, FlattenArgs(args))
    requires Stops(ts[p + |FlattenArgs(args)|], Comparison) && !ts[p + |FlattenArgs(args)|].CommaTok?
    ensures ParseArgs(ts, p) == ArgList(args, p + |FlattenArgs(args)|)
    decreases args
  {
    hide Here, ParseComparison, Flatten, Shaped, FlattenArgs, Ended;
    var f := Flatten(args[0]);
    if |args| == 1 {
      assert args == [args[0]];
      OneArg(args);
      HereInside(ts, p, f);
      ReadsComparison(ts, p, args[0]);
    } else {
      ArgsHere(ts, p, args);
      ReadsComparison(ts, p, args[0]);
      ReadsArgs(ts, p + |f| + 1, args[1..]);
      assert args == [args[0]] + args[1..];
    }
  }

  lemma OneArg(args: seq<Expr>)
    requires |args| == 1
    ensures FlattenArgs(args) == Flatten(args[0])
  {
  }

  lemma {:induction false} FlattenNoEnd(e: Expr)
    ensures forall i | 0 <= i < |Flatten(e)| :: !Flatten(e)[i].EndTok?
    decreases e, 1
  {
    match e
    case Negate(x) => FlattenNoEnd(x);
    case Binary(_, l, r) => FlattenNoEnd(l); FlattenNoEnd(r);
    case Grouped(x) => FlattenNoEnd(x);
    case Subscript(_, i) => FlattenNoEnd(i);
    case AttributeAccess(_, a, v) =>
      FlattenNoEnd(a);
      if v.Some? { FlattenNoEnd(v.value); }
    case FunctionCall(_, args) => ArgsNoEnd(args);
    case _ =>
  }

  lemma {:induction false} ArgsNoEnd(args: seq<Expr>)
    ensures forall i | 0 <= i < |FlattenArgs(args)| :: !FlattenArgs(args)[i].EndTok?
    decreases args, 0
  {
    if args != [] {
      FlattenNoEnd(args[0]);
      ArgsNoEnd(args[1..]);
    }
  }

  /** Every well-shaped tree is what the parser reads from its tokens. */
  lemma ParseFlatten(e: Expr)
    requires Shaped(e, Comparison)
    ensures Ended(Flatten(e) + [EndTok]) && Parse(Flatten(e) + [EndTok]) == Some(e)
  {
    hide Flatten, Shaped, ParseComparison;
    var f := Flatten(e);
    var ts := f + [EndTok];
    FlattenNoEnd(e);
    StartsRight(e, Comparison);
    assert ts[0..0 + |f|] == f;
    ReadsComparison(ts, 0, e);
  }

  // ---------------------------------------------------------------------------------------------
  // Every successful parse gives a shaped tree that spells the tokens read
  // ---------------------------------------------------------------------------------------------

  /** Equal tokens, up to the case of a builtin's name. */
  predicate SameToken(read: Token, shown: Token) {
    read == shown ||
    (read.IdentTok? && shown.IdentTok? && shown.name == Uppercase(read.name) && IsBuiltin(shown.name))
  }

  predicate Alike(a: seq<Token>, b: seq<Token>) {
    |a| == |b| && forall i | 0 <= i < |a| :: SameToken(a[i], b[i])
  }

  predicate Spells(ts: seq<Token>, p: nat, q: nat, part: seq<Token>) {
    p <= q <= |ts| && Alike(ts[p..q], part)
  }

  lemma SpellsAppend(ts: seq<Token>, p: nat, q: nat, r: nat, a: seq<Token>, b: seq<Token>)
    requires Spells(ts, p, q, a) && Spells(ts, q, r, b)
    ensures Spells(ts, p, r, a + b)
  {
    hide SameToken;
    assert ts[p..r] == ts[p..q] + ts[q..r];
  }

  lemma SpellsOne(ts: seq<Token>, p: nat, t: Token)
    requires p < |ts| && SameToken(ts[p], t)
    ensures Spells(ts, p, p + 1, [t])
  {
    hide SameToken;
    assert ts[p..p + 1] == [ts[p]];
  }

  /** An identifier before position `q` is not followed by a glued `<`. */
  predicate Closed(ts: seq<Token>, q: nat) {
    0 < q < |ts| && (ts[q - 1].IdentTok? ==> ts[q] != LtTok(true))
  }

  /** What a successful parse from `p` to `q` at some level has achieved. */
  predicate Reading(ts: seq<Token>, p: nat, q: nat, e: Expr, level: Level) {
    p < q && Shaped(e, level) && Spells(ts, p, q, Flatten(e)) && Closed(ts, q)
  }

  lemma JoinReadings(ts: seq<Token>, p: nat, q: nat, r: nat, left: Expr, right: Expr, l1: Level, l2: Level)
    requires q < |ts| && Reading(ts, p, q, left, l1) && Reading(ts, q + 1, r, right, l2)
    requires TokenFor(OpFor(ts[q])) == ts[q]
    ensures p < r && Spells(ts, p, r, Flatten(Binary(OpFor(ts[q]), left, right))) && Closed(ts, r)
  {
    hide Spells, Shaped, SameToken, TokenFor, OpFor, Closed;
    SameSelf(ts[q]);
    SpellsOne(ts, q, ts[q]);
    SpellsAppend(ts, p, q, q + 1, Flatten(left), [ts[q]]);
    SpellsAppend(ts, p, q + 1, r, Flatten(left) + [ts[q]], Flatten(right));
  }

  lemma SameSelf(t: Token)
    ensures SameToken(t, t)
  {
  }

  lemma {:induction false} ComparisonGives(ts: seq<Token>, p: nat)
    requires Ended(ts) && WellGlued(ts) && p < |ts|
    ensures var r := ParseComparison(ts, p); r.Ok? ==> Reading(ts, p, r.next, r.e, Comparison)
    decreases |ts| - p, 6
  {
    hide ParseAddSub, Spells, Flatten, IsBuiltin, BuiltinArity;
    SumGives(ts, p);
    var left := ParseAddSub(ts, p);
    if left.Ok? {
      SumIsComparison(left.e);
      if IsComparisonTok(ts[left.next]) {
        SumGives(ts, left.next + 1);
        var right := ParseAddSub(ts, left.next + 1);
        if right.Ok? {
          assert ts[left.next] != LtTok(true);
          JoinReadings(ts, p, left.next, right.next, left.e, right.e, Sum, Sum);
        }
      }
    }
  }

  lemma SumIsComparison(e: Expr)
    requires Shaped(e, Sum)
    ensures Shaped(e, Comparison)
  {
    hide IsBuiltin, BuiltinArity;
  }

  lemma ProductIsSum(e: Expr)
    requires Shaped(e, Product)
    ensures Shaped(e, Sum)
  {
    hide IsBuiltin, BuiltinArity;
  }

  lemma SignedIsProduct(e: Expr)
    requires Shaped(e, Signed)
    ensures Shaped(e, Product)
  {
    hide IsBuiltin, BuiltinArity;
  }

  lemma PrimaryIsSigned(e: Expr)
    requires Shaped(e, Primary)
    ensures Shaped(e, Signed)
  {
    hide IsBuiltin, BuiltinArity;
  }

  lemma {:induction false} SumGives(ts: seq<Token>, p: nat)
    requires Ended(ts) && WellGlued(ts) && p < |ts|
    ensures var r := ParseAddSub(ts, p); r.Ok? ==> Reading(ts, p, r.next, r.e, Sum)
    decreases |ts| - p, 5
  {
    hide ParseMulDiv, AddTail, Spells, Flatten, Shaped, Closed, WellGlued, Ended;
    ProductGives(ts, p);
    var left := ParseMulDiv(ts, p);
    if left.Ok? {
      ProductIsSum(left.e);
      AddTailGives(ts, p, left.e, left.next);
    }
  }

  lemma {:induction false} AddTailGives(ts: seq<Token>, p: nat, left: Expr, q: nat)
    requires Ended(ts) && WellGlued(ts) && q < |ts| && Reading(ts, p, q, left, Sum)
    ensures var r := AddTail(ts, left, q); r.Ok? ==> Reading(ts, p, r.next, r.e, Sum)
    decreases |ts| - q, 4
  {
    hide ParseMulDiv, Spells, Flatten, Closed, WellGlued, IsBuiltin, BuiltinArity;
    if IsAddTok(ts[q]) {
      ProductGives(ts, q + 1);
      var right := ParseMulDiv(ts, q + 1);
      if right.Ok? {
        JoinReadings(ts, p, q, right.next, left, right.e, Sum, Product);
        AddTailGives(ts, p, Binary(OpFor(ts[q]), left, right.e), right.next);
      }
    }
  }

  lemma {:induction false} ProductGives(ts: seq<Token>, p: nat)
    requires Ended(ts) && WellGlued(ts) && p < |ts|
    ensures var r := ParseMulDiv(ts, p); r.Ok? ==> Reading(ts, p, r.next, r.e, Product)
    decreases |ts| - p, 3
  {
    hide ParseUnary, MulTail, Spells, Flatten, Shaped, Closed, WellGlued, Ended;
    SignedGives(ts, p);
    var left := ParseUnary(ts, p);
    if left.Ok? {
      SignedIsProduct(left.e);
      MulTailGives(ts, p, left.e, left.next);
    }
  }

  lemma {:induction false} MulTailGives(ts: seq<Token>, p: nat, left: Expr, q: nat)
    requires Ended(ts) && WellGlued(ts) && q < |ts| && Reading(ts, p, q, left, Product)
    ensures var r := MulTail(ts, left, q); r.Ok? ==> Reading(ts, p, r.next, r.e, Product)
    decreases |ts| - q, 2
  {
    hide ParseUnary, Spells, Flatten, Closed, WellGlued, IsBuiltin, BuiltinArity;
    if IsMulTok(ts[q]) {
      SignedGives(ts, q + 1);
      var right := ParseUnary(ts, q + 1);
      if right.Ok? {
        JoinReadings(ts, p, q, right.next, left, right.e, Product, Signed);
        MulTailGives(ts, p, Binary(OpFor(ts[q]), left, right.e), right.next);
      }
    }
  }

  lemma {:induction false} SignedGives(ts: seq<Token>, p: nat)
    requires Ended(ts) && WellGlued(ts) && p < |ts|
    ensures var r := ParseUnary(ts, p); r.Ok? ==> Reading(ts, p, r.next, r.e, Signed)
    decreases |ts| - p, 1
  {
    hide ParsePrimary, Spells, Closed, WellGlued, IsBuiltin, BuiltinArity;
    if ts[p].MinusTok? {
      SignedGives(ts, p + 1);
      var x := ParseUnary(ts, p + 1);
      if x.Ok? {
        SpellsOne(ts, p, MinusTok);
        SpellsAppend(ts, p, p + 1, x.next, [MinusTok], Flatten(x.e));
      }
    } else {
      PrimaryGives(ts, p);
      if ParsePrimary(ts, p).Ok? {
        PrimaryIsSigned(ParsePrimary(ts, p).e);
      }
    }
  }

  lemma {:induction false} PrimaryGives(ts: seq<Token>, p: nat)
    requires Ended(ts) && WellGlued(ts) && p < |ts|
    ensures var r := ParsePrimary(ts, p); r.Ok? ==> Reading(ts, p, r.next, r.e, Primary)
    decreases |ts| - p, 0
  {
    hide ParseAddSub, ParseCall, ParseSubscript, ParseAttribute, Spells, IsBuiltin, BuiltinArity, WellGlued, Uppercase;
    var t := ts[p];
    if t.IdentTok? {
      if ts[p + 1].LParenTok? {
        if IsBuiltin(Uppercase(t.name)) {
          CallGives(ts, p);
        } else {
          SubscriptGives(ts, p);
        }
      } else if ts[p + 1] == LtTok(true) {
        AttributeGives(ts, p);
      } else {
        SpellsOne(ts, p, t);
      }
    } else if t.LParenTok? {
      GroupGives(ts, p);
    } else if t.IntTok? || t.FloatTok? || t.StrTok? {
      SpellsOne(ts, p, t);
    }
  }

  lemma {:induction false} GroupGives(ts: seq<Token>, p: nat)
    requires Ended(ts) && WellGlued(ts) && p < |ts| && ts[p].LParenTok?
    ensures var r := ParsePrimary(ts, p); r.Ok? ==> Reading(ts, p, r.next, r.e, Primary)
    decreases |ts| - p - 1, 20
  {
    hide ParseAddSub, ParseCall, ParseSubscript, ParseAttribute, Spells, IsBuiltin, BuiltinArity, WellGlued, Uppercase;
    SumGives(ts, p + 1);
    var x := ParseAddSub(ts, p + 1);
    if x.Ok? && ts[x.next].RParenTok? {
      SpellsOne(ts, p, LParenTok);
      SpellsOne(ts, x.next, RParenTok);
      SpellsAppend(ts, p, p + 1, x.next, [LParenTok], Flatten(x.e));
      SpellsAppend(ts, p, x.next, x.next + 1, [LParenTok] + Flatten(x.e), [RParenTok]);
    }
  }

  /** A name and the token after it. */
  lemma SpellsTwo(ts: seq<Token>, p: nat, a: Token, b: Token)
    requires p + 1 < |ts| && SameToken(ts[p], a) && ts[p + 1] == b
    ensures Spells(ts, p, p + 2, [a, b])
  {
    hide Spells;
    SameSelf(b);
    SpellsOne(ts, p, a);
    SpellsOne(ts, p + 1, b);
    SpellsAppend(ts, p, p + 1, p + 2, [a], [b]);
    assert [a] + [b] == [a, b];
  }

  lemma {:induction false} SubscriptGives(ts: seq<Token>, p: nat)
    requires Ended(ts) && WellGlued(ts) && p + 1 < |ts| && ts[p].IdentTok? && ts[p + 1].LParenTok? && !IsBuiltin(Uppercase(ts[p].name))
    ensures var r := ParseSubscript(ts, p); r.Ok? ==> Reading(ts, p, r.next, r.e, Primary)
    decreases |ts| - p - 1, 20
  {
    hide ParseAddSub, Spells, IsBuiltin, BuiltinArity, WellGlued, Uppercase;
    SumGives(ts, p + 2);
    var x := ParseAddSub(ts, p + 2);
    if x.Ok? && ts[x.next].RParenTok? {
      SpellsTwo(ts, p, ts[p], LParenTok);
      SpellsOne(ts, x.next, RParenTok);
      SpellsAppend(ts, p, p + 2, x.next, [ts[p], LParenTok], Flatten(x.e));
      SpellsAppend(ts, p, x.next, x.next + 1, [ts[p], LParenTok] + Flatten(x.e), [RParenTok]);
    }
  }

  lemma {:induction false} AttributeGives(ts: seq<Token>, p: nat)
    requires Ended(ts) && WellGlued(ts) && p + 1 < |ts| && ts[p].IdentTok? && ts[p + 1] == LtTok(true)
    ensures var r := ParseAttribute(ts, p); r.Ok? ==> Reading(ts, p, r.next, r.e, Primary)
    decreases |ts| - p - 1, 20
  {
    hide ParseAddSub, Spells, IsBuiltin, BuiltinArity, WellGlued, Uppercase, SameToken;
    var r := ParseAttribute(ts, p);
    if r.Ok? {
      SumGives(ts, p + 2);
      var x := ParseAddSub(ts, p + 2);
      var head := [ts[p], LtTok(true)] + Flatten(x.e);
      SameSelf(ts[p]);
      SpellsTwo(ts, p, ts[p], LtTok(true));
      SpellsAppend(ts, p, p + 2, x.next, [ts[p], LtTok(true)], Flatten(x.e));
      SameSelf(GtTok);
      if ts[x.next].GtTok? {
        SpellsOne(ts, x.next, GtTok);
        SpellsAppend(ts, p, x.next, r.next, head, [GtTok]);
        assert head + [] + [GtTok] == head + [GtTok];
      } else {
        SumGives(ts, x.next + 1);
        var y := ParseAddSub(ts, x.next + 1);
        SameSelf(CommaTok);
        SpellsOne(ts, x.next, CommaTok);
        SpellsAppend(ts, x.next, x.next + 1, y.next, [CommaTok], Flatten(y.e));
        SpellsAppend(ts, p, x.next, y.next, head, [CommaTok] + Flatten(y.e));
        SpellsOne(ts, y.next, GtTok);
        SpellsAppend(ts, p, y.next, r.next, head + ([CommaTok] + Flatten(y.e)), [GtTok]);
      }
    }
  }

  lemma {:induction false} CallGives(ts: seq<Token>, p: nat)
    requires Ended(ts) && WellGlued(ts) && p + 1 < |ts| && ts[p].IdentTok? && ts[p + 1].LParenTok? && IsBuiltin(Uppercase(ts[p].name))
    ensures var r := ParseCall(ts, p); r.Ok? ==> Reading(ts, p, r.next, r.e, Primary)
    decreases |ts| - p - 1, 20
  {
    hide ParseArgs, Spells, BuiltinArity, WellGlued, Uppercase;
    var r := ParseCall(ts, p);
    if r.Ok? {
      var name := Uppercase(ts[p].name);
      UppercaseTwice(ts[p].name);
      SpellsTwo(ts, p, IdentTok(name), LParenTok);
      var head := [IdentTok(name), LParenTok];
      SpellsOne(ts, r.next - 1, RParenTok);
      if ts[p + 2].RParenTok? {
        SpellsAppend(ts, p, p + 2, p + 3, head, [RParenTok]);
        assert FlattenArgs([]) == [];
        assert head + [] + [RParenTok] == head + [RParenTok];
        assert BuiltinArity(name).value.0 <= |r.e.args| <= BuiltinArity(name).value.1;
        assert Shaped(r.e, Primary);
        assert Spells(ts, p, r.next, Flatten(r.e));
      } else {
        ArgsGive(ts, p + 2);
        var a := ParseArgs(ts, p + 2);
        SpellsAppend(ts, p, p + 2, a.next, head, FlattenArgs(a.args));
        SpellsAppend(ts, p, a.next, r.next, head + FlattenArgs(a.args), [RParenTok]);
      }
    }
  }

  lemma {:induction false} ArgsGive(ts: seq<Token>, p: nat)
    requires Ended(ts) && WellGlued(ts) && p < |ts|
    ensures var r := ParseArgs(ts, p); r.ArgList? ==> p < r.next && ShapedArgs(r.args) && Spells(ts, p, r.next, FlattenArgs(r.args))
    decreases |ts| - p, 7
  {
    hide ParseComparison, Spells, WellGlued, Shaped, Flatten, Closed;
    var r := ParseArgs(ts, p);
    if r.ArgList? {
      ComparisonGives(ts, p);
      var x := ParseComparison(ts, p);
      if ts[x.next].CommaTok? {
        ArgsGive(ts, x.next + 1);
        var rest := ParseArgs(ts, x.next + 1);
        assert r.args[1..] == rest.args;
        SpellsOne(ts, x.next, CommaTok);
        SpellsAppend(ts, p, x.next, x.next + 1, Flatten(x.e), [CommaTok]);
        SpellsAppend(ts, p, x.next + 1, rest.next, Flatten(x.e) + [CommaTok], FlattenArgs(rest.args));
      } else {
        assert r.args[1..] == [];
      }
    }
  }

  /** Every successful parse gives a well-shaped tree whose tokens are all the tokens before End, up to
      the case of builtin names. */
  lemma ParseGives(ts: seq<Token>)
    requires Ended(ts) && WellGlued(ts)
    ensures Parse(ts).Some? ==>
              Shaped(Parse(ts).value, Comparison) && Alike(ts[..|ts| - 1], Flatten(Parse(ts).value))
  {
    hide ParseComparison, Shaped, Flatten, WellGlued;
    if Parse(ts).Some? {
      ComparisonGives(ts, 0);
      var r := ParseComparison(ts, 0);
      assert r.next == |ts| - 1;
      assert ts[0..|ts| - 1] == ts[..|ts| - 1];
    }
  }

  /** No two well-shaped trees have the same tokens. */
  lemma Unambiguous(a: Expr, b: Expr)
    requires Shaped(a, Comparison) && Shaped(b, Comparison) && Flatten(a) == Flatten(b)
    ensures a == b
  {
    hide Flatten, Shaped, Parse;
    ParseFlatten(a);
    ParseFlatten(b);
  }

  // ---------------------------------------------------------------------------------------------
  // The parser as it works
  // ---------------------------------------------------------------------------------------------

  class TokenParser {
    const tokens: seq<Token>
    var pos: nat

    /** The cursor never passes the End token. */
    predicate Valid()
      reads this
    {
      Ended(tokens) && pos < |tokens|
    }

    constructor (ts: seq<Token>)
      requires Ended(ts)
      ensures Valid() && tokens == ts && pos == 0
    {
      tokens, pos := ts, 0;
    }

    /** What a call promises: the functional parser's answer, and the cursor behind what was read. */
    ghost predicate Answers(r: Option<Expr>, want: Parsed)
      reads this
    {
      && Valid()
      && (r.Some? <==> want.Ok?)
      && (r.Some? ==> r.value == want.e && pos == want.next)
    }

    method Advance() returns (t: Token)
      requires Valid() && !tokens[pos].EndTok?
      modifies this
      ensures Valid() && pos == old(pos) + 1 && t == tokens[old(pos)]
    {
      t := tokens[pos];
      pos := pos + 1;
    }

    method ReadComparison() returns (r: Option<Expr>)
      requires Valid()
      modifies this
      ensures Answers(r, ParseComparison(tokens, old(pos)))
      decreases |tokens| - pos, 6
    {
      hide ParseAddSub;
      r := ReadAddSub();
      if r.None? || !IsComparisonTok(tokens[pos]) {
        return;
      }
      var op := Advance();
      var right := ReadAddSub();
      if right.None? {
        return None;
      }
      r := Some(Binary(OpFor(op), r.value, right.value));
    }

    method ReadAddSub() returns (r: Option<Expr>)
      requires Valid()
      modifies this
      ensures Answers(r, ParseAddSub(tokens, old(pos)))
      decreases |tokens| - pos, 5
    {
      hide ParseMulDiv;
      r := ReadMulDiv();
      if r.None? {
        return;
      }
      while IsAddTok(tokens[pos])
        invariant Valid() && r.Some? && pos > old(pos)
        invariant AddTail(tokens, r.value, pos) == ParseAddSub(tokens, old(pos))
        decreases |tokens| - pos
      {
        var op := Advance();
        var right := ReadMulDiv();
        if right.None? {
          return None;
        }
        r := Some(Binary(OpFor(op), r.value, right.value));
      }
    }

    method ReadMulDiv() returns (r: Option<Expr>)
      requires Valid()
      modifies this
      ensures Answers(r, ParseMulDiv(tokens, old(pos)))
      decreases |tokens| - pos, 3
    {
      hide ParseUnary;
      r := ReadUnary();
      if r.None? {
        return;
      }
      while IsMulTok(tokens[pos])
        invariant Valid() && r.Some? && pos > old(pos)
        invariant MulTail(tokens, r.value, pos) == ParseMulDiv(tokens, old(pos))
        decreases |tokens| - pos
      {
        var op := Advance();
        var right := ReadUnary();
        if right.None? {
          return None;
        }
        r := Some(Binary(OpFor(op), r.value, right.value));
      }
    }

    method ReadUnary() returns (r: Option<Expr>)
      requires Valid()
      modifies this
      ensures Answers(r, ParseUnary(tokens, old(pos)))
      decreases |tokens| - pos, 1
    {
      hide ParsePrimary;
      if tokens[pos].MinusTok? {
        var minus := Advance();
        r := ReadUnary();
        if r.Some? {
          r := Some(Negate(r.value));
        }
      } else {
        r := ReadPrimary();
      }
    }

    method ReadPrimary() returns (r: Option<Expr>)
      requires Valid()
      modifies this
      ensures Answers(r, ParsePrimary(tokens, old(pos)))
      decreases |tokens| - pos, 0
    {
      hide ParseAddSub, ParseCall, ParseSubscript, ParseAttribute, IsBuiltin, BuiltinArity, Uppercase;
      match tokens[pos]
      case IntTok(n) =>
        var t := Advance();
        r := Some(IntLiteral(n));
      case FloatTok(d) =>
        var t := Advance();
        r := Some(FloatLiteral(d));
      case StrTok(s) =>
        var t := Advance();
        r := Some(StringLiteral(s));
      case IdentTok(name) =>
        var t := Advance();
        if tokens[pos].LParenTok? {
          if IsBuiltin(Uppercase(name)) {
            r := ReadCall(name);
          } else {
            r := ReadSubscript(name);
          }
        } else if tokens[pos] == LtTok(true) {
          r := ReadAttribute(name);
        } else {
          r := Some(Identifier(name));
        }
      case LParenTok =>
        var open := Advance();
        if tokens[pos].RParenTok? {
          return None;
        }
        r := ReadAddSub();
        if r.None? {
          return;
        }
        if !tokens[pos].RParenTok? {
          return None;
        }
        var close := Advance();
        r := Some(Grouped(r.value));
      case _ =>
        r := None;
    }

    /** The cursor stands at the parenthesis after the name. */
    method ReadSubscript(name: string) returns (r: Option<Expr>)
      requires Valid() && pos > 0 && tokens[pos - 1] == IdentTok(name) && tokens[pos].LParenTok?
      modifies this
      ensures Answers(r, ParseSubscript(tokens, old(pos) - 1))
      decreases |tokens| - pos, 10
    {
      hide ParseAddSub;
      var open := Advance();
      r := ReadAddSub();
      if r.None? {
        return;
      }
      if !tokens[pos].RParenTok? {
        return None;
      }
      var close := Advance();
      r := Some(Subscript(name, r.value));
    }

    method ReadAttribute(name: string) returns (r: Option<Expr>)
      requires Valid() && pos > 0 && tokens[pos - 1] == IdentTok(name) && tokens[pos].LtTok?
      modifies this
      ensures Answers(r, ParseAttribute(tokens, old(pos) - 1))
      decreases |tokens| - pos, 10
    {
      hide ParseAddSub;
      var open := Advance();
      if tokens[pos].CommaTok? || tokens[pos].GtTok? || tokens[pos].EndTok? {
        return None;
      }
      var attr := ReadAddSub();
      if attr.None? {
        return None;
      }
      var valueIndex := None;
      if tokens[pos].CommaTok? {
        var comma := Advance();
        if tokens[pos].GtTok? || tokens[pos].EndTok? {
          return None;
        }
        valueIndex := ReadAddSub();
        if valueIndex.None? {
          return None;
        }
      }
      if !tokens[pos].GtTok? {
        return None;
      }
      var close := Advance();
      r := Some(AttributeAccess(name, attr.value, valueIndex));
    }

    method ReadCall(name: string) returns (r: Option<Expr>)
      requires Valid() && pos > 0 && tokens[pos - 1] == IdentTok(name) && tokens[pos].LParenTok? && IsBuiltin(Uppercase(name))
      modifies this
      ensures Answers(r, ParseCall(tokens, old(pos) - 1))
      decreases |tokens| - pos, 10
    {
      hide ParseArgs, BuiltinArity, Uppercase;
      var open := Advance();
      var bounds := BuiltinArity(Uppercase(name)).value;
      var args: seq<Expr> := [];
      if tokens[pos].RParenTok? {
        if bounds.0 > 0 {
          return None;
        }
      } else {
        var ok;
        ok, args := ReadArgs();
        if !ok {
          return None;
        }
      }
      if !tokens[pos].RParenTok? {
        return None;
      }
      if |args| < bounds.0 || |args| > bounds.1 {
        return None;
      }
      var close := Advance();
      r := Some(FunctionCall(Uppercase(name), args));
    }

    method ReadArgs() returns (ok: bool, args: seq<Expr>)
      requires Valid()
      modifies this
      ensures Valid()
      ensures var want := ParseArgs(tokens, old(pos)); ok == want.ArgList? && (ok ==> args == want.args && pos == want.next)
      decreases |tokens| - pos, 7
    {
      hide ParseComparison;
      args := [];
      ghost var want := ParseArgs(tokens, pos);
      while true
        invariant Valid() && pos >= old(pos)
        invariant var rest := ParseArgs(tokens, pos);
                  want == match rest case ArgError => ArgError case ArgList(more, q) => ArgList(args + more, q)
        decreases |tokens| - pos
      {
        ghost var here := pos;
        ghost var rest := ParseArgs(tokens, here);
        var arg := ReadComparison();
        if arg.None? {
          return false, args;
        }
        if !tokens[pos].CommaTok? {
          args := args + [arg.value];
          return true, args;
        }
        var comma := Advance();
        if tokens[pos].RParenTok? {
          return false, args;
        }
        ghost var later := ParseArgs(tokens, pos);
        if later.ArgList? {
          assert args + ([arg.value] + later.args) == args + [arg.value] + later.args;
        }
        args := args + [arg.value];
      }
    }

    /** Reads the whole token list. */
    method ReadAll() returns (r: Option<Expr>)
      requires Valid() && pos == 0
      modifies this
      ensures Valid() && r == Parse(tokens)
    {
      hide ParseComparison;
      if |tokens| == 1 {
        return None;
      }
      r := ReadComparison();
      if r.Some? && !tokens[pos].EndTok? {
        return None;
      }
    }
  }
}
