/**
 * The JMESPath Pratt parser: a `Parser` object that consumes a queue of
 * positioned tokens from the front and builds the syntax tree.
 *
 * The lexer is not part of this model: `ParseExpression` takes it as a
 * function, and each token's left binding power is the parser's `lbp`.
 * Error messages keep the source's text and the token found; the source
 * appends that token to the text.
 */
module JmesParser {
  import opened Wrappers
  import opened JmesAst

  /** A token and the offset in the expression where it starts. */
  type TokenTuple = (nat, Token)

  /** A projection's right-hand side stops at a token binding weaker than this. */
  const ProjectionStop: nat := 10

  /** The number of `:` tokens in a run of tokens. */
  function Colons(ts: seq<TokenTuple>): nat
  {
    if ts == [] then 0
    else Colons(ts[..|ts| - 1]) + (if ts[|ts| - 1].1 == Token.Colon then 1 else 0)
  }

  lemma ColonsStep(ts: seq<TokenTuple>, n: nat)
    requires n < |ts|
    ensures Colons(ts[..n + 1]) == Colons(ts[..n]) + (if ts[n].1 == Token.Colon then 1 else 0)
  {
    assert ts[..n + 1][..n] == ts[..n];
  }

  /**
   * The slice parts a run of bracket tokens fills, as start, stop and step:
   * each number goes to the part numbered by the colons before it.
   */
  function SliceParts(ts: seq<TokenTuple>): (r: seq<Option<int>>)
    ensures |r| == 3
  {
    if ts == [] then [None, None, None]
    else
      var init := ts[..|ts| - 1];
      var t := ts[|ts| - 1].1;
      if t.Number? && Colons(init) <= 2 then SliceParts(init)[Colons(init) := Some(t.n)] else SliceParts(init)
  }

  lemma SlicePartsStep(ts: seq<TokenTuple>, n: nat)
    requires n < |ts|
    ensures SliceParts(ts[..n + 1])
         == if ts[n].1.Number? && Colons(ts[..n]) <= 2 then SliceParts(ts[..n])[Colons(ts[..n]) := Some(ts[n].1.n)]
            else SliceParts(ts[..n])
  {
    assert ts[..n + 1][..n] == ts[..n];
  }

  /** `[1:]` fills only the start; `[::-1]` fills only the step; `[:2:]` fills only the stop. */
  /** `[1:]` fills only the start; `[::-1]` fills only the step; `[:2:]` fills only the stop. */
  lemma SlicePartsExamples()
    ensures SliceParts([(1, Token.Number(1)), (2, Token.Colon), (3, Token.Rbracket)]) == [Some(1), None, None]
    ensures SliceParts([(1, Token.Colon), (2, Token.Colon), (3, Token.Number(-1)), (5, Token.Rbracket)]) == [None, None, Some(-1)]
    ensures SliceParts([(1, Token.Colon), (2, Token.Number(2)), (3, Token.Colon), (4, Token.Rbracket)]) == [None, Some(2), None]
  {
    var a := [(1, Token.Number(1)), (2, Token.Colon), (3, Token.Rbracket)];
    SlicePartsThrough(a);
    var b := [(1, Token.Colon), (2, Token.Colon), (3, Token.Number(-1)), (5, Token.Rbracket)];
    SlicePartsThrough(b);
    var c := [(1, Token.Colon), (2, Token.Number(2)), (3, Token.Colon), (4, Token.Rbracket)];
    SlicePartsThrough(c);
  }

  /** Unfolds `SliceParts` and `Colons` one token at a time over every prefix of `ts`. */
  lemma SlicePartsThrough(ts: seq<TokenTuple>)
    ensures forall n :: 0 <= n < |ts| ==>
      Colons(ts[..n + 1]) == Colons(ts[..n]) + (if ts[n].1 == Token.Colon then 1 else 0)
      && SliceParts(ts[..n + 1])
         == if ts[n].1.Number? && Colons(ts[..n]) <= 2 then SliceParts(ts[..n])[Colons(ts[..n]) := Some(ts[n].1.n)]
            else SliceParts(ts[..n])
    ensures ts[..|ts|] == ts && ts[..0] == []
  {
    forall n | 0 <= n < |ts|
      ensures Colons(ts[..n + 1]) == Colons(ts[..n]) + (if ts[n].1 == Token.Colon then 1 else 0)
      ensures SliceParts(ts[..n + 1])
         == if ts[n].1.Number? && Colons(ts[..n]) <= 2 then SliceParts(ts[..n])[Colons(ts[..n]) := Some(ts[n].1.n)]
            else SliceParts(ts[..n])
    {
      ColonsStep(ts, n);
      SlicePartsStep(ts, n);
    }
  }

  class Parser {
    /** The tokens not consumed yet. */
    var tokenQueue: seq<TokenTuple>
    /** The offset of the token consumed last. */
    var offset: nat
    /** The expression being parsed, for error reports. */
    const expr: string
    /** Each token's left binding power. */
    const lbp: Token -> nat
    /** The two tokens consumed last (`Eof` before there are any). */
    ghost var lastTok: Token
    ghost var prevTok: Token

    constructor (tokens: seq<TokenTuple>, expr: string, lbp: Token -> nat)
      ensures tokenQueue == tokens && offset == 0
      ensures this.expr == expr && this.lbp == lbp
      ensures lastTok == Token.Eof && prevTok == Token.Eof
    {
      tokenQueue := tokens;
      offset := 0;
      this.expr := expr;
      this.lbp := lbp;
      lastTok := Token.Eof;
      prevTok := Token.Eof;
    }

    /** The token `k` places ahead, `Eof` past the end of the queue. */
    function Peek(k: nat): Token
      reads this
    {
      if k < |tokenQueue| then tokenQueue[k].1 else Token.Eof
    }

    /**
     * A parse error at the current offset, or, for a token only peeked at,
     * at the offset of the queue's head.
     */
    function Error(found: Token, msg: string, isPeek: bool): JmesError
      reads this
    {
      JmesError(if isPeek && tokenQueue != [] then tokenQueue[0].0 else offset, ErrorReason.Parse(msg, Some(found)))
    }

    /** Takes the head of the queue; an empty queue gives `Eof` at the current offset. */
    method Advance() returns (pos: nat, tok: Token)
      modifies this
      ensures old(tokenQueue) == [] ==>
        tokenQueue == [] && tok == Token.Eof && pos == offset == old(offset)
        && lastTok == old(lastTok) && prevTok == old(prevTok)
      ensures old(tokenQueue) != [] ==>
        tokenQueue == old(tokenQueue[1..]) && (pos, tok) == old(tokenQueue[0]) && offset == pos
        && lastTok == tok && prevTok == old(lastTok)
    {
      if tokenQueue == [] {
        pos, tok := offset, Token.Eof;
      } else {
        pos, tok := tokenQueue[0].0, tokenQueue[0].1;
        tokenQueue := tokenQueue[1..];
        offset := pos;
        prevTok := lastTok;
        lastTok := tok;
      }
    }

    /** A whole expression: the tokens left after it must be only `Eof`. */
    method Parse() returns (r: Result<Ast, JmesError>)
      modifies this
      ensures |tokenQueue| <= old(|tokenQueue|)
      ensures r.Ok? ==> Peek(0) == Token.Eof
      ensures r.Ok? ==> lastTok != Token.Comma
    {
      r := Expr(0);
      if r.Err? {
        return;
      }
      var t := Peek(0);
      if t != Token.Eof {
        r := Err(Error(t, "Did not parse the complete expression", true));
      }
    }

    /** The Pratt loop: a prefix, then infix operators binding tighter than `rbp`. */
    method Expr(rbp: nat) returns (r: Result<Ast, JmesError>)
      modifies this
      decreases |tokenQueue|, 2
      ensures |tokenQueue| <= old(|tokenQueue|)
      ensures r.Ok? ==> |tokenQueue| < old(|tokenQueue|) && lastTok != Token.Comma
      ensures r.Ok? ==> lbp(Peek(0)) <= rbp
    {
      r := Nud();
      while rbp < lbp(Peek(0))
        invariant |tokenQueue| <= old(|tokenQueue|)
        invariant r.Ok? ==> |tokenQueue| < old(|tokenQueue|) && lastTok != Token.Comma
        decreases |tokenQueue| + (if r.Ok? then 1 else 0)
      {
        if r.Err? {
          return;
        }
        r := Led(r.value);
      }
    }

    /** A token in prefix position. */
    method Nud() returns (r: Result<Ast, JmesError>)
      modifies this
      decreases |tokenQueue|, 1
      ensures |tokenQueue| <= old(|tokenQueue|)
      ensures r.Ok? ==> |tokenQueue| < old(|tokenQueue|) && lastTok != Token.Comma
      ensures old(Peek(0)) == Token.Lbrace && old(Peek(1)) == Token.Rbrace ==>
        r == Ok(Ast.MultiHash(old(tokenQueue[0].0), []))
      ensures old(Peek(0)).QuotedIdentifier? && old(Peek(1)) == Token.Lparen ==>
        r == Err(JmesError(old(tokenQueue[1].0), ErrorReason.Parse("Quoted strings can't be a function name", Some(Token.Lparen))))
      ensures old(Peek(0)).Identifier? ==> r == Ok(Ast.Field(old(tokenQueue[0].0), old(Peek(0)).name))
    {
      var at, token := Advance();
      if token == Token.At {
        r := Ok(Ast.Identity(at));
      } else if token.Identifier? {
        r := Ok(Ast.Field(at, token.name));
      } else if token.QuotedIdentifier? {
        if Peek(0) == Token.Lparen {
          r := Err(Error(Token.Lparen, "Quoted strings can't be a function name", true));
        } else {
          r := Ok(Ast.Field(at, token.name));
        }
      } else if token == Token.Star {
        r := ParseWildcardValues(Ast.Identity(at));
      } else if token.Literal? {
        r := Ok(Ast.Literal(at, token.value));
      } else if token == Token.Lbracket {
        if Peek(0).Number? || Peek(0) == Token.Colon {
          ghost var used: nat;
          r, used := ParseIndex();
        } else if Peek(0) == Token.Star && Peek(1) == Token.Rbracket {
          var _, _ := Advance();
          r := ParseWildcardIndex(Ast.Identity(at));
        } else {
          ghost var elements: seq<Ast>;
          r, elements := ParseMultiList();
        }
      } else if token == Token.Flatten {
        r := ParseFlatten(Ast.Identity(at));
      } else if token == Token.Lbrace {
        r := ParseMultiHash(at);
      } else if token == Token.Ampersand {
        var rhs := Expr(lbp(Token.Ampersand));
        if rhs.Err? {
          return rhs;
        }
        r := Ok(Ast.Expref(at, rhs.value));
      } else if token == Token.Not {
        var node := Expr(lbp(Token.Not));
        if node.Err? {
          return node;
        }
        r := Ok(Ast.Not(at, node.value));
      } else if token == Token.Filter {
        r := ParseFilter(Ast.Identity(at));
      } else if token == Token.Lparen {
        var result := Expr(0);
        if result.Err? {
          return result;
        }
        var _, t := Advance();
        if t == Token.Rparen {
          r := result;
        } else {
          r := Err(Error(t, "Expected ')' to close '('", false));
        }
      } else {
        r := Err(Error(token, "Unexpected nud token", false));
      }
    }

    /** `{k: v, …}`, the `{` consumed at `start`; `{}` has no pairs. */
    method ParseMultiHash(start: nat) returns (r: Result<Ast, JmesError>)
      modifies this
      decreases |tokenQueue|, 4
      ensures |tokenQueue| <= old(|tokenQueue|)
      ensures r.Ok? ==> |tokenQueue| < old(|tokenQueue|) && lastTok == Token.Rbrace
      ensures r.Ok? ==> r.value.MultiHash? && r.value.offset == start
      ensures old(Peek(0)) == Token.Rbrace ==> r == Ok(Ast.MultiHash(start, []))
    {
      if Peek(0) == Token.Rbrace {
        var _, _ := Advance();
        return Ok(Ast.MultiHash(start, []));
      }
      var pairs: seq<KeyValuePair> := [];
      while true
        invariant |tokenQueue| <= old(|tokenQueue|)
        decreases |tokenQueue|
      {
        var kvp := ParseKvp();
        if kvp.Err? {
          return Err(kvp.error);
        }
        pairs := pairs + [kvp.value];
        var _, t := Advance();
        if t == Token.Rbrace {
          assert lastTok == Token.Rbrace && |tokenQueue| < old(|tokenQueue|);
          break;
        } else if t != Token.Comma {
          return Err(Error(t, "Expected '}' or ','", false));
        }
      }
      r := Ok(Ast.MultiHash(start, pairs));
    }

    /** A token in infix position, with `left` already parsed. */
    method Led(left: Ast) returns (r: Result<Ast, JmesError>)
      modifies this
      decreases |tokenQueue|, 1
      ensures |tokenQueue| <= old(|tokenQueue|)
      ensures r.Ok? ==> |tokenQueue| < old(|tokenQueue|) && lastTok != Token.Comma
      ensures old(Peek(0)) == Token.Lparen && !left.Field? ==>
        r.Err? && r.error.reason == ErrorReason.Parse("Invalid function call (LHS is not a field)", Some(old(Peek(1))))
      ensures old(Peek(0)) == Token.Lparen && left.Field? && r.Ok? ==>
        r.value.Function? && r.value.name == left.name
      ensures old(Peek(0)) == Token.Filter && r.Ok? ==>
        r.value.Projection? && r.value.lhs == left && r.value.rhs.Condition? && r.value.rhs.thenNode.Identity?
    {
      var at, token := Advance();
      if token == Token.Dot {
        if Peek(0) == Token.Star {
          var _, _ := Advance();
          r := ParseWildcardValues(left);
        } else {
          var rhs := ParseDot(lbp(Token.Dot));
          if rhs.Err? {
            return rhs;
          }
          r := Ok(Ast.Subexpr(at, left, rhs.value));
        }
      } else if token == Token.Lbracket {
        if Peek(0).Number? || Peek(0) == Token.Colon {
          r := LedIndex(at, left);
        } else {
          var _, _ := Advance();
          r := ParseWildcardIndex(left);
        }
      } else if token == Token.Or {
        var rhs := Expr(lbp(Token.Or));
        if rhs.Err? {
          return rhs;
        }
        r := Ok(Ast.Or(at, left, rhs.value));
      } else if token == Token.And {
        var rhs := Expr(lbp(Token.And));
        if rhs.Err? {
          return rhs;
        }
        r := Ok(Ast.And(at, left, rhs.value));
      } else if token == Token.Pipe {
        var rhs := Expr(lbp(Token.Pipe));
        if rhs.Err? {
          return rhs;
        }
        r := Ok(Ast.Subexpr(at, left, rhs.value));
      } else if token == Token.Lparen {
        if left.Field? {
          var args := ParseList(Token.Rparen);
          if args.Err? {
            return Err(args.error);
          }
          r := Ok(Ast.Function(at, left.name, args.value));
        } else {
          r := Err(Error(Peek(0), "Invalid function call (LHS is not a field)", true));
        }
      } else if token == Token.Flatten {
        r := ParseFlatten(left);
      } else if token == Token.Filter {
        r := ParseFilter(left);
      } else if token == Token.Eq {
        r := ParseComparator(Equal, left);
      } else if token == Token.Ne {
        r := ParseComparator(NotEqual, left);
      } else if token == Token.Gt {
        r := ParseComparator(GreaterThan, left);
      } else if token == Token.Gte {
        r := ParseComparator(GreaterThanEqual, left);
      } else if token == Token.Lt {
        r := ParseComparator(LessThan, left);
      } else if token == Token.Lte {
        r := ParseComparator(LessThanEqual, left);
      } else {
        r := Err(Error(token, "Unexpected led token", false));
      }
    }

    /** `left[` followed by a number or a colon: the index or slice, applied to `left` at offset `at`. */
    method LedIndex(at: nat, left: Ast) returns (r: Result<Ast, JmesError>)
      modifies this
      decreases |tokenQueue|, 6
      ensures |tokenQueue| <= old(|tokenQueue|)
      ensures r.Ok? ==> |tokenQueue| < old(|tokenQueue|) && lastTok != Token.Comma
      ensures r.Ok? ==> r.value.Subexpr? && r.value.offset == at && r.value.lhs == left
    {
      var index, _ := ParseIndex();
      if index.Err? {
        return index;
      }
      r := Ok(Ast.Subexpr(at, left, index.value));
    }

    /** One `key: value` of a multi-hash; the key is an identifier, quoted or not. */
    method ParseKvp() returns (r: Result<KeyValuePair, JmesError>)
      modifies this
      decreases |tokenQueue|, 3
      ensures |tokenQueue| <= old(|tokenQueue|)
      ensures r.Ok? ==> |tokenQueue| < old(|tokenQueue|) && lastTok != Token.Comma
      ensures r.Ok? ==>
        (old(Peek(0)) == Token.Identifier(r.value.key) || old(Peek(0)) == Token.QuotedIdentifier(r.value.key))
        && old(Peek(1)) == Token.Colon
    {
      var _, t := Advance();
      if t.Identifier? || t.QuotedIdentifier? {
        if Peek(0) == Token.Colon {
          var _, _ := Advance();
          var value := Expr(0);
          if value.Err? {
            return Err(value.error);
          }
          r := Ok(KeyValuePair(t.name, value.value));
        } else {
          r := Err(Error(Peek(0), "Expected ':' after key", true));
        }
      } else {
        r := Err(Error(t, "Expected a key (identifier) in object", false));
      }
    }

    /** `[? cond ]` after `lhs`: keep the elements of `lhs` for which `cond` holds. */
    method ParseFilter(lhs: Ast) returns (r: Result<Ast, JmesError>)
      modifies this
      decreases |tokenQueue|, 3
      ensures |tokenQueue| <= old(|tokenQueue|)
      ensures r.Ok? ==> lastTok == Token.Rbracket
      ensures r.Ok? ==>
        r.value.Projection? && r.value.lhs == lhs && r.value.rhs.Condition? && r.value.rhs.thenNode.Identity?
    {
      var cond := Expr(0);
      if cond.Err? {
        return cond;
      }
      var _, t := Advance();
      if t == Token.Rbracket {
        r := Ok(Ast.Projection(offset, lhs, Ast.Condition(offset, cond.value, Ast.Identity(offset))));
      } else {
        r := Err(Error(t, "Expected ']' after filter condition", false));
      }
    }

    /** `[]` after `lhs`: flatten it, then project the rest over the elements. */
    method ParseFlatten(lhs: Ast) returns (r: Result<Ast, JmesError>)
      requires lastTok != Token.Comma
      modifies this
      decreases |tokenQueue|, 5
      ensures |tokenQueue| <= old(|tokenQueue|)
      ensures r.Ok? ==> lastTok != Token.Comma
      ensures r.Ok? ==> r.value.Projection? && r.value.lhs == Ast.Flatten(r.value.lhs.offset, lhs)
    {
      var rhs := ProjectionRhs(lbp(Token.Flatten));
      if rhs.Err? {
        return rhs;
      }
      r := Ok(Ast.Projection(offset, Ast.Flatten(offset, lhs), rhs.value));
    }

    /** A comparison: the right operand binds like `==`. */
    method ParseComparator(cmp: Comparator, lhs: Ast) returns (r: Result<Ast, JmesError>)
      modifies this
      decreases |tokenQueue|, 3
      ensures |tokenQueue| <= old(|tokenQueue|)
      ensures r.Ok? ==> lastTok != Token.Comma
      ensures r.Ok? ==> r.value.Comparison? && r.value.comparator == cmp && r.value.lhs == lhs
    {
      var rhs := Expr(lbp(Token.Eq));
      if rhs.Err? {
        return rhs;
      }
      r := Ok(Ast.Comparison(offset, cmp, lhs, rhs.value));
    }

    /** What follows a `.`: a multi-select list or an expression. */
    method ParseDot(bp: nat) returns (r: Result<Ast, JmesError>)
      modifies this
      decreases |tokenQueue|, 3
      ensures |tokenQueue| <= old(|tokenQueue|)
      ensures r.Ok? ==> |tokenQueue| < old(|tokenQueue|) && lastTok != Token.Comma
    {
      if Peek(0) == Token.Lbracket {
        var _, _ := Advance();
        ghost var elements: seq<Ast>;
        r, elements := ParseMultiList();
      } else {
        r := Expr(bp);
      }
    }

    /** The right-hand side of a projection; a weakly binding token ends it as `@`. */
    method ProjectionRhs(bp: nat) returns (r: Result<Ast, JmesError>)
      requires lastTok != Token.Comma
      modifies this
      decreases |tokenQueue|, 4
      ensures |tokenQueue| <= old(|tokenQueue|)
      ensures r.Ok? ==> lastTok != Token.Comma
      ensures old(lbp(Peek(0))) >= ProjectionStop && old(Peek(0)) !in {Token.Dot, Token.Lbracket, Token.Filter} ==>
        r == Err(old(Error(Peek(0), "Expected '.', '[', or '[?'", true)))
      ensures old(lbp(Peek(0))) < ProjectionStop && old(Peek(0)) !in {Token.Dot, Token.Lbracket, Token.Filter} ==>
        r == Ok(Ast.Identity(offset)) && tokenQueue == old(tokenQueue)
    {
      var t := Peek(0);
      if t == Token.Dot {
        var _, _ := Advance();
        r := ParseDot(bp);
      } else if t == Token.Lbracket || t == Token.Filter {
        r := Expr(bp);
      } else if lbp(t) < ProjectionStop {
        r := Ok(Ast.Identity(offset));
      } else {
        r := Err(Error(t, "Expected '.', '[', or '[?'", true));
      }
    }

    /** `[*]` after `lhs`: project the rest over its elements. */
    method ParseWildcardIndex(lhs: Ast) returns (r: Result<Ast, JmesError>)
      modifies this
      decreases |tokenQueue|, 5
      ensures |tokenQueue| <= old(|tokenQueue|)
      ensures r.Ok? ==> |tokenQueue| < old(|tokenQueue|) && lastTok != Token.Comma
      ensures r.Ok? ==> old(Peek(0)) == Token.Rbracket && r.value.Projection? && r.value.lhs == lhs
    {
      var _, t := Advance();
      if t == Token.Rbracket {
        var rhs := ProjectionRhs(lbp(Token.Star));
        if rhs.Err? {
          return rhs;
        }
        r := Ok(Ast.Projection(offset, lhs, rhs.value));
      } else {
        r := Err(Error(t, "Expected ']' for wildcard index", false));
      }
    }

    /** `*` after `lhs`: project the rest over its object's values. */
    method ParseWildcardValues(lhs: Ast) returns (r: Result<Ast, JmesError>)
      requires lastTok != Token.Comma
      modifies this
      decreases |tokenQueue|, 5
      ensures |tokenQueue| <= old(|tokenQueue|)
      ensures r.Ok? ==> lastTok != Token.Comma
      ensures r.Ok? ==> r.value.Projection? && r.value.lhs == Ast.ObjectValues(r.value.lhs.offset, lhs)
    {
      var rhs := ProjectionRhs(lbp(Token.Star));
      if rhs.Err? {
        return rhs;
      }
      r := Ok(Ast.Projection(offset, Ast.ObjectValues(offset, lhs), rhs.value));
    }

    /**
     * The loop of an index or slice, the `[` consumed: the numbers before,
     * between and after up to two colons, through the closing `]`.
     * `consumed` counts the tokens taken.
     */
    method ScanIndex() returns (err: Option<JmesError>, parts: seq<Option<int>>, pos: nat, ghost consumed: nat)
      modifies this
      ensures consumed <= old(|tokenQueue|) && tokenQueue == old(tokenQueue)[consumed..]
      ensures err.None? ==>
        1 <= consumed && lastTok == Token.Rbracket && |parts| == 3 && pos <= 2
        && pos == Colons(old(tokenQueue)[..consumed]) && (parts[2].Some? ==> pos == 2)
        && parts == SliceParts(old(tokenQueue)[..consumed]) && offset == old(tokenQueue)[consumed - 1].0
      ensures err.None? && pos == 0 && parts[0].Some? ==>
        old(Peek(0)) == Token.Number(parts[0].value) && old(Peek(1)) == Token.Rbracket
      ensures old(Peek(0)).Number? && old(Peek(1)) == Token.Rbracket ==>
        err.None? && pos == 0 && parts[0] == Some(old(Peek(0)).n) && consumed == 2 && offset == old(tokenQueue[1].0)
      ensures old(Peek(0)) == Token.Colon && old(Peek(1)) == Token.Colon && old(Peek(2)) == Token.Colon ==>
        err == Some(JmesError(old(tokenQueue[2].0), ErrorReason.Parse("Too many colons in slice expr", Some(Token.Colon))))
    {
      ghost var q0 := tokenQueue;
      parts := [None, None, None];
      pos := 0;
      consumed := 0;
      while true
        invariant consumed <= |q0| && tokenQueue == q0[consumed..]
        invariant |parts| == 3 && pos <= 2
        invariant pos == Colons(q0[..consumed])
        invariant parts == SliceParts(q0[..consumed])
        invariant 1 <= consumed ==> offset == q0[consumed - 1].0
        invariant parts[2].Some? ==> pos == 2
        invariant pos == 0 ==>
          (consumed == 0 && parts[0].None?)
          || (consumed == 1 && q0[0].1.Number? && parts[0] == Some(q0[0].1.n) && (Peek(0) == Token.Colon || Peek(0) == Token.Rbracket))
        invariant (|q0| >= 3 && q0[0].1 == q0[1].1 == q0[2].1 == Token.Colon) ==> consumed == pos
        invariant (|q0| >= 2 && q0[0].1.Number? && q0[1].1 == Token.Rbracket) ==> consumed <= 1 && pos == 0
        decreases |tokenQueue|
      {
        ghost var before := tokenQueue;
        var _, t := Advance();
        if before != [] {
          ColonsStep(q0, consumed);
          SlicePartsStep(q0, consumed);
          consumed := consumed + 1;
        }
        if t.Number? {
          parts := parts[pos := Some(t.n)];
          if Peek(0) != Token.Colon && Peek(0) != Token.Rbracket {
            return Some(Error(Peek(0), "Expected ':' or ']'", true)), parts, pos, consumed;
          }
        } else if t == Token.Rbracket {
          break;
        } else if t == Token.Colon {
          if pos >= 2 {
            return Some(Error(Token.Colon, "Too many colons in slice expr", false)), parts, pos, consumed;
          }
          pos := pos + 1;
          if !Peek(0).Number? && Peek(0) != Token.Colon && Peek(0) != Token.Rbracket {
            return Some(Error(Peek(0), "Expected number, ':' or ']'", true)), parts, pos, consumed;
          }
        } else {
          return Some(Error(t, "Expected number, ':', or ']'", false)), parts, pos, consumed;
        }
      }
      err := None;
    }

    /**
     * An index `[n]` or a slice `[start:stop:step]`, the `[` consumed.
     * `consumed` counts the tokens up to and including the closing `]`.
     */
    method ParseIndex() returns (r: Result<Ast, JmesError>, ghost consumed: nat)
      modifies this
      decreases |tokenQueue|, 5
      ensures |tokenQueue| <= old(|tokenQueue|)
      ensures r.Ok? ==> |tokenQueue| < old(|tokenQueue|) && lastTok != Token.Comma
      ensures r.Ok? ==> r.value.Index? || (r.value.Projection? && r.value.lhs.Slice?)
      ensures old(Peek(0)).Number? && old(Peek(1)) == Token.Rbracket ==>
        r == Ok(Ast.Index(old(tokenQueue[1].0), old(Peek(0)).n)) && tokenQueue == old(tokenQueue[2..])
      ensures r.Ok? && r.value.Index? ==>
        old(Peek(0)) == Token.Number(r.value.idx) && old(Peek(1)) == Token.Rbracket
      ensures r.Ok? && r.value.Projection? ==>
        consumed <= old(|tokenQueue|) && 1 <= Colons(old(tokenQueue)[..consumed]) <= 2
        && (Colons(old(tokenQueue)[..consumed]) < 2 ==> r.value.lhs.step == 1)
      ensures r.Ok? && r.value.Projection? ==>
        1 <= consumed <= old(|tokenQueue|)
        && var parts := SliceParts(old(tokenQueue)[..consumed]);
           var at := old(tokenQueue)[consumed - 1].0;
           r.value.offset == at
           && r.value.lhs == Ast.Slice(at, parts[0], parts[1], if parts[2].Some? then parts[2].value else 1)
      ensures old(Peek(0)) == Token.Colon && old(Peek(1)) == Token.Colon && old(Peek(2)) == Token.Colon ==>
        r == Err(JmesError(old(tokenQueue[2].0), ErrorReason.Parse("Too many colons in slice expr", Some(Token.Colon))))
    {
      var err, parts, pos;
      err, parts, pos, consumed := ScanIndex();
      if err.Some? {
        return Err(err.value), consumed;
      }
      if pos == 0 {
        if parts[0].None? {
          return Err(JmesError(offset, ErrorReason.Parse("Expected index number, found None", None))), consumed;
        }
        r := Ok(Ast.Index(offset, parts[0].value));
      } else {
        var step := if parts[2].Some? then parts[2].value else 1;
        var at := offset;
        var slice := Ast.Slice(at, parts[0], parts[1], step);
        var rhs := ProjectionRhs(lbp(Token.Star));
        if rhs.Err? {
          return Err(rhs.error), consumed;
        }
        r := Ok(Ast.Projection(at, slice, rhs.value));
      }
    }
    /**
     * `[a, b, …]`, the `[` consumed. `elements` are the parsed list's
     * elements: a single string literal among them is read as a field name at
     * the literal's offset, anything else is a multi-list at the offset where
     * the list began.
     */
    method ParseMultiList() returns (r: Result<Ast, JmesError>, ghost elements: seq<Ast>)
      requires lastTok != Token.Comma
      modifies this
      decreases |tokenQueue|, 4
      ensures |tokenQueue| <= old(|tokenQueue|)
      ensures r.Ok? ==> |tokenQueue| < old(|tokenQueue|) && lastTok == Token.Rbracket
      ensures r.Ok? && |elements| == 1 && elements[0].Literal? && elements[0].value.String? ==>
        r.value == Ast.Field(elements[0].offset, elements[0].value.s)
      ensures r.Ok? && !(|elements| == 1 && elements[0].Literal? && elements[0].value.String?) ==>
        r.value == Ast.MultiList(old(offset), elements)
    {
      var start := offset;
      elements := [];
      var parsed := ParseList(Token.Rbracket);
      if parsed.Err? {
        return Err(parsed.error), elements;
      }
      var es := parsed.value;
      elements := es;
      if |es| == 1 && es[0].Literal? && es[0].value.String? {
        return Ok(Ast.Field(es[0].offset, es[0].value.s)), elements;
      }
      r := Ok(Ast.MultiList(start, es));
    }

    /**
     * Comma-separated expressions up to `closing`, which is consumed; a comma
     * right before `closing` is an error.
     */
    method ParseList(closing: Token) returns (r: Result<seq<Ast>, JmesError>)
      requires closing == Token.Rbracket || closing == Token.Rparen
      requires lastTok != Token.Comma
      modifies this
      decreases |tokenQueue|, 3
      ensures |tokenQueue| <= old(|tokenQueue|)
      ensures r.Ok? ==> |tokenQueue| < old(|tokenQueue|) && lastTok == closing && prevTok != Token.Comma
    {
      var nodes: seq<Ast> := [];
      while Peek(0) != closing
        invariant |tokenQueue| <= old(|tokenQueue|)
        invariant lastTok == Token.Comma ==> Peek(0) != closing
        decreases |tokenQueue|
      {
        var e := Expr(0);
        if e.Err? {
          return Err(e.error);
        }
        nodes := nodes + [e.value];
        if Peek(0) == Token.Comma {
          var _, _ := Advance();
          if Peek(0) == closing {
            return Err(Error(Peek(0), "invalid trailing comma", true));
          }
        }
      }
      var _, _ := Advance();
      r := Ok(nodes);
    }
  }

  /** `parse`: tokenize the expression, then parse the whole token queue. */
  method ParseExpression(expr: string, tokenize: string -> Result<seq<TokenTuple>, JmesError>, lbp: Token -> nat)
    returns (r: Result<Ast, JmesError>)
    ensures tokenize(expr).Err? ==> r == Err(tokenize(expr).error)
    ensures r.Ok? ==> tokenize(expr).Ok?
  {
    var tokens := tokenize(expr);
    if tokens.Err? {
      return Err(tokens.error);
    }
    var parser := new Parser(tokens.value, expr, lbp);
    r := parser.Parse();
  }
}
