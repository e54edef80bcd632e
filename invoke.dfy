/**
 * FnCmd.Invoke: gate on the predicate, check the number of tokens, convert them
 * to the parameter types (a trailing slice taking all that remain), and call the
 * body with the values.
 */
module Invocations {
  import opened Wrappers
  import opened Decimal
  import opened Discord
  import opened Types
  import opened Errors
  import opened Convert
  import opened Commands

  /**
   * What Invoke returns instead of nil: one of the package's errors, or the
   * recovered panic of indexing paramTypes at the given index.
   */
  datatype InvokeError = Reported(err: CmdError) | IndexPanic(index: int)

  /** The body was called with these converted arguments (after the session and the event), or Invoke failed. */
  datatype Outcome = Called(args: seq<Val>) | Failed(failure: InvokeError)

  /** tryConvert with the session and the float decoder fixed. */
  type Converter = (Scalar, string) --> Result<Val, Cause>

  /** conv takes any token for any legal type, and what it makes of the token has that type. */
  ghost predicate Sound(conv: Converter) {
    (forall t, token :: !Illegal(ScalarKind(t)) ==> conv.requires(t, token)) &&
    (forall t, token :: !Illegal(ScalarKind(t)) && conv(t, token).Success? ==> HasType(conv(t, token).value, t))
  }

  /** The conversion Invoke applies to its tokens. */
  function TryConverter(s: Session, pf: FloatDecoder): Converter {
    (t: Scalar, token: string) requires !Illegal(ScalarKind(t)) => TryConvert(s, t, token, pf)
  }

  /** tryConvert is defined for every legal type, and its values have the type asked for. */
  lemma TryConverterSound(s: Session, pf: FloatDecoder)
    ensures Sound(TryConverter(s, pf))
  {
    var conv := TryConverter(s, pf);
    forall t, token | !Illegal(ScalarKind(t)) && conv(t, token).Success?
      ensures HasType(conv(t, token).value, t)
    {
      assert conv(t, token) == TryConvert(s, t, token, pf);
    }
  }

  predicate TrailingSlice(params: seq<Type>) {
    |params| > 0 && params[|params| - 1].SliceOf?
  }

  /** n tokens fill params: one each, or, with a trailing slice, at least that many. */
  predicate ArityOk(params: seq<Type>, n: nat) {
    |params| <= n && (n > |params| ==> TrailingSlice(params))
  }

  function Prepend<T>(vs: seq<T>, r: Result<seq<T>, Cause>): Result<seq<T>, Cause> {
    match r
    case Success(ws) => Success(vs + ws)
    case Failure(c) => Failure(c)
  }

  /** The tokens converted one by one to e, stopping at the first failure. */
  function ConvertEach(conv: Converter, e: Scalar, tokens: seq<string>): Result<seq<Val>, Cause>
    requires Sound(conv) && !Illegal(ScalarKind(e))
    decreases |tokens|
  {
    if tokens == [] then Success([])
    else
      match conv(e, tokens[0])
      case Failure(c) => Failure(c)
      case Success(v) => Prepend([v], ConvertEach(conv, e, tokens[1..]))
  }

  lemma ParamsOkSuffix(params: seq<Type>, i: nat)
    requires ParamsOk(params) && i <= |params|
    ensures ParamsOk(params[i..])
  {
    assert forall j :: 0 <= j < |params| - i ==> params[i..][j] == params[i + j];
  }

  /** The tokens converted to the parameters in order, a trailing slice taking the rest. */
  function ConvertArgs(conv: Converter, params: seq<Type>, tokens: seq<string>): Result<seq<Val>, Cause>
    requires Sound(conv) && ParamsOk(params) && |params| <= |tokens|
    decreases |params|
  {
    if params == [] then Success([])
    else
      match params[0]
      case SliceOf(e) =>
        (match ConvertEach(conv, e, tokens)
         case Failure(c) => Failure(c)
         case Success(vs) => Success([SliceV(vs)]))
      case Single(t) =>
        (match conv(t, tokens[0])
         case Failure(c) => Failure(c)
         case Success(v) =>
           ParamsOkSuffix(params, 1);
           Prepend([v], ConvertArgs(conv, params[1..], tokens[1..])))
  }

  /** The value Invoke returns, in the order it checks. */
  function Invocation(cmd: Cmd, s: Session, m: Message, args: seq<string>, pf: FloatDecoder): Outcome {
    TryConverterSound(s, pf);
    InvocationWith(cmd, s, m, args, TryConverter(s, pf))
  }

  /** Invoke's checks and conversions, for any converter that behaves as tryConvert promises. */
  function InvocationWith(cmd: Cmd, s: Session, m: Message, args: seq<string>, conv: Converter): Outcome
    requires Sound(conv)
  {
    var params := cmd.paramTypes;
    if !cmd.pred.Validate(s, m) then Failed(Reported(AccessDenied))
    else if |params| == 0 then Failed(IndexPanic(-1))
    else if !ArityOk(params, |args|) then Failed(Reported(ArgCountMismatch(|params|, |args|)))
    else
      CmdParamsOk(cmd);
      match ConvertArgs(conv, params, args)
      case Failure(c) => Failed(Reported(UnmarshalError(c)))
      case Success(vals) => Called(vals)
  }

  /** The conversions still to come from parameter c on. */
  function Remaining(conv: Converter, params: seq<Type>, args: seq<string>, c: nat): Result<seq<Val>, Cause>
    requires Sound(conv) && ParamsOk(params) && |params| <= |args|
  {
    if c < |params| then
      ParamsOkSuffix(params, c);
      ConvertArgs(conv, params[c..], args[c..])
    else Success([])
  }

  /** Past the gate and the count, Invoke's value is the outcome of the conversions. */
  lemma PastChecks(cmd: Cmd, s: Session, m: Message, args: seq<string>, pf: FloatDecoder)
    requires cmd.pred.Validate(s, m) && |cmd.paramTypes| > 0 && ArityOk(cmd.paramTypes, |args|)
    ensures ParamsOk(cmd.paramTypes) && Sound(TryConverter(s, pf))
    ensures Invocation(cmd, s, m, args, pf) ==
      match ConvertArgs(TryConverter(s, pf), cmd.paramTypes, args)
      case Failure(c) => Failed(Reported(UnmarshalError(c)))
      case Success(vals) => Called(vals)
  {
    CmdParamsOk(cmd);
    TryConverterSound(s, pf);
  }

  lemma PrependTwice<T>(vs: seq<T>, ws: seq<T>, r: Result<seq<T>, Cause>)
    ensures Prepend(vs, Prepend(ws, r)) == Prepend(vs + ws, r)
  {
    if r.Success? {
      assert vs + (ws + r.value) == (vs + ws) + r.value;
    }
  }

  lemma PrependNothing<T>(vs: seq<T>, r: Result<seq<T>, Cause>)
    ensures Prepend([], r) == r
    ensures Prepend(vs, Success([])) == Success(vs)
  {
    assert vs + [] == vs;
    if r.Success? {
      assert [] + r.value == r.value;
    }
  }

  /** Parameter c is not a slice: its token, then the parameters after it. */
  lemma SingleStep(conv: Converter, params: seq<Type>, args: seq<string>, c: nat)
    requires Sound(conv) && ParamsOk(params) && |params| <= |args| && c < |params| && params[c].Single?
    ensures Remaining(conv, params, args, c) ==
      match conv(params[c].scalar, args[c])
      case Failure(e) => Failure(e)
      case Success(v) => Prepend([v], Remaining(conv, params, args, c + 1))
  {
    ParamsOkSuffix(params, c);
    assert params[c..][0] == params[c] && params[c..][1..] == params[c + 1..];
    assert args[c..][0] == args[c] && args[c..][1..] == args[c + 1..];
  }

  /** Parameter c is a slice: it is the last, and takes every token from c on. */
  lemma SliceStep(conv: Converter, params: seq<Type>, args: seq<string>, c: nat)
    requires Sound(conv) && ParamsOk(params) && |params| <= |args| && c < |params| && params[c].SliceOf?
    ensures c == |params| - 1
    ensures Remaining(conv, params, args, c) ==
      match ConvertEach(conv, params[c].elem, args[c..])
      case Failure(e) => Failure(e)
      case Success(vs) => Success([SliceV(vs)])
  {
    ParamsOkSuffix(params, c);
    assert params[c..][0] == params[c];
  }

  /** One more token of a slice. */
  lemma EachStep(conv: Converter, e: Scalar, args: seq<string>, c: nat)
    requires Sound(conv) && !Illegal(ScalarKind(e)) && c < |args|
    ensures ConvertEach(conv, e, args[c..]) ==
      match conv(e, args[c])
      case Failure(err) => Failure(err)
      case Success(v) => Prepend([v], ConvertEach(conv, e, args[c + 1..]))
  {
    assert args[c..][0] == args[c] && args[c..][1..] == args[c + 1..];
  }

  /**
   * The inner loop of FnCmd.Invoke: from token c on, every token converted to the
   * slice's element type; the index is shared with the outer loop, so it is
   * handed back.
   */
  method ConvertSlice(s: Session, sliceType: Scalar, args: seq<string>, pf: FloatDecoder, c0: nat)
    returns (r: Result<seq<Val>, Cause>, c: nat)
    requires !Illegal(ScalarKind(sliceType)) && c0 <= |args|
    ensures Sound(TryConverter(s, pf))
    ensures r == ConvertEach(TryConverter(s, pf), sliceType, args[c0..])
    ensures r.Success? ==> c == |args|
  {
    TryConverterSound(s, pf);
    ghost var conv := TryConverter(s, pf);
    var elems: seq<Val> := [];
    c := c0;
    PrependNothing(elems, ConvertEach(conv, sliceType, args[c..]));
    while c < |args|
      invariant c0 <= c <= |args|
      invariant ConvertEach(conv, sliceType, args[c0..]) == Prepend(elems, ConvertEach(conv, sliceType, args[c..]))
    {
      var converted := TryConvert(s, sliceType, args[c], pf);
      assert converted == conv(sliceType, args[c]);
      if converted.Failure? {
        SliceStops(conv, sliceType, args, c0, c, elems);
        return Failure(converted.error), c;
      }
      SliceAdvances(conv, sliceType, args, c0, c, elems);
      elems := elems + [converted.value];
      c := c + 1;
    }
    assert args[c..] == [];
    PrependNothing(elems, Success([]));
    return Success(elems), c;
  }

  /** A token of the slice that converts joins the values converted before it. */
  lemma SliceAdvances(conv: Converter, e: Scalar, args: seq<string>, c0: nat, c: nat, elems: seq<Val>)
    requires Sound(conv) && !Illegal(ScalarKind(e)) && c0 <= c < |args|
    requires ConvertEach(conv, e, args[c0..]) == Prepend(elems, ConvertEach(conv, e, args[c..]))
    requires conv(e, args[c]).Success?
    ensures ConvertEach(conv, e, args[c0..]) ==
      Prepend(elems + [conv(e, args[c]).value], ConvertEach(conv, e, args[c + 1..]))
  {
    EachStep(conv, e, args, c);
    PrependTwice(elems, [conv(e, args[c]).value], ConvertEach(conv, e, args[c + 1..]));
  }

  /** A token of the slice that does not convert ends the slice with its error. */
  lemma SliceStops(conv: Converter, e: Scalar, args: seq<string>, c0: nat, c: nat, elems: seq<Val>)
    requires Sound(conv) && !Illegal(ScalarKind(e)) && c0 <= c < |args|
    requires ConvertEach(conv, e, args[c0..]) == Prepend(elems, ConvertEach(conv, e, args[c..]))
    requires conv(e, args[c]).Failure?
    ensures ConvertEach(conv, e, args[c0..]) == Failure(conv(e, args[c]).error)
  {
    EachStep(conv, e, args, c);
  }

  /**
   * The conversion loop of FnCmd.Invoke: the outer loop walks the tokens with c; at
   * a slice parameter the inner loop takes the rest. The first token that does not
   * convert ends it.
   */
  method ConvertTokens(s: Session, params: seq<Type>, args: seq<string>, pf: FloatDecoder)
    returns (r: Result<seq<Val>, Cause>)
    requires ParamsOk(params) && |params| > 0 && ArityOk(params, |args|)
    ensures Sound(TryConverter(s, pf))
    ensures r == ConvertArgs(TryConverter(s, pf), params, args)
  {
    TryConverterSound(s, pf);
    ghost var conv := TryConverter(s, pf);
    var vals: seq<Val> := [];
    var c := 0;
    assert params[0..] == params && args[0..] == args;
    PrependNothing(vals, ConvertArgs(conv, params, args));
    while c < |args|
      invariant c <= |args| + 1
      invariant c < |params| || c >= |args|
      invariant ConvertArgs(conv, params, args) == Prepend(vals, Remaining(conv, params, args, c))
      decreases |args| + 1 - c
    {
      var val: Val;
      var want := params[c];
      if want.SliceOf? {
        SliceStep(conv, params, args, c);
        var converted;
        converted, c := ConvertSlice(s, want.elem, args, pf, c);
        if converted.Failure? {
          return Failure(converted.error);
        }
        PrependNothing(vals + [SliceV(converted.value)], Success([]));
        val := SliceV(converted.value);
      } else {
        var converted := TryConvert(s, want.scalar, args[c], pf);
        SingleStep(conv, params, args, c);
        if converted.Failure? {
          return Failure(converted.error);
        }
        PrependTwice(vals, [converted.value], Remaining(conv, params, args, c + 1));
        val := converted.value;
      }
      vals := vals + [val];
      c := c + 1;
    }
    PrependNothing(vals, Success([]));
    return Success(vals);
  }

  /**
   * FnCmd.Invoke: the predicate gate, the count of tokens (indexing the last
   * parameter type, which panics when there is none), the conversions, the call.
   */
  method Invoke(cmd: Cmd, s: Session, m: Message, args: seq<string>, pf: FloatDecoder) returns (r: Outcome)
    ensures r == Invocation(cmd, s, m, args, pf)
  {
    if !cmd.pred.Validate(s, m) {
      return Failed(Reported(AccessDenied));
    }
    var params := cmd.paramTypes;
    var expectLen := |params|;
    var actualLen := |args|;
    if expectLen == 0 {
      return Failed(IndexPanic(-1));
    }
    var sliceReceiver := params[expectLen - 1].SliceOf?;
    if actualLen < expectLen || (!sliceReceiver && actualLen > expectLen) {
      return Failed(Reported(ArgCountMismatch(expectLen, actualLen)));
    }
    PastChecks(cmd, s, m, args, pf);
    var converted := ConvertTokens(s, params, args, pf);
    if converted.Failure? {
      return Failed(Reported(UnmarshalError(converted.error)));
    }
    return Called(converted.value);
  }

  /** The type token j converts to: its parameter's, the slice's element for the tokens past the last. */
  function TokenType(params: seq<Type>, j: nat): Scalar
    requires |params| > 0
  {
    Element(params[if j < |params| then j else |params| - 1])
  }

  /**
   * The slice loop: every token converted in order; the first token that does not
   * convert ends it with that token's error.
   */
  lemma {:induction false} ConvertEachScan(conv: Converter, e: Scalar, tokens: seq<string>)
    requires Sound(conv) && !Illegal(ScalarKind(e))
    ensures ConvertEach(conv, e, tokens).Success? <==>
      forall j :: 0 <= j < |tokens| ==> conv(e, tokens[j]).Success?
    ensures ConvertEach(conv, e, tokens).Success? ==>
      |ConvertEach(conv, e, tokens).value| == |tokens| &&
      forall j :: 0 <= j < |tokens| ==> conv(e, tokens[j]) == Success(ConvertEach(conv, e, tokens).value[j])
    ensures ConvertEach(conv, e, tokens).Failure? ==>
      exists j :: 0 <= j < |tokens| && conv(e, tokens[j]) == Failure(ConvertEach(conv, e, tokens).error) &&
        forall k :: 0 <= k < j ==> conv(e, tokens[k]).Success?
    decreases |tokens|
  {
    if tokens != [] {
      var rest := tokens[1..];
      ConvertEachScan(conv, e, rest);
      assert forall j :: 1 <= j < |tokens| ==> tokens[j] == rest[j - 1];
      var r := ConvertEach(conv, e, tokens);
      if conv(e, tokens[0]).Success? {
        var r' := ConvertEach(conv, e, rest);
        if r'.Failure? {
          var j :| 0 <= j < |rest| && conv(e, rest[j]) == Failure(r'.error) &&
            forall k :: 0 <= k < j ==> conv(e, rest[k]).Success?;
          assert conv(e, tokens[j + 1]) == Failure(r.error);
          assert forall k :: 0 <= k < j + 1 ==> conv(e, tokens[k]).Success?;
        }
      }
    }
  }

  /** After a single first parameter that converts, the rest of the tokens fill the rest of the parameters. */
  lemma SingleFirst(conv: Converter, params: seq<Type>, args: seq<string>)
    requires Sound(conv) && ParamsOk(params) && |params| > 1 && ArityOk(params, |args|) && params[0].Single?
    requires conv(params[0].scalar, args[0]).Success?
    ensures ParamsOk(params[1..]) && ArityOk(params[1..], |args| - 1)
    ensures ConvertArgs(conv, params, args) ==
      Prepend([conv(params[0].scalar, args[0]).value], ConvertArgs(conv, params[1..], args[1..]))
  {
    ParamsOkSuffix(params, 1);
  }

  /** The conversion loop succeeds exactly when every token converts to its type. */
  lemma {:induction false} ConvertArgsSucceeds(conv: Converter, params: seq<Type>, args: seq<string>)
    requires Sound(conv) && ParamsOk(params) && |params| > 0 && ArityOk(params, |args|)
    ensures ConvertArgs(conv, params, args).Success? <==>
      forall j :: 0 <= j < |args| ==> conv(TokenType(params, j), args[j]).Success?
    decreases |params|
  {
    match params[0]
    case SliceOf(e) =>
      ConvertEachScan(conv, e, args);
      assert forall j :: TokenType(params, j) == e;
    case Single(t) =>
      if |params| > 1 {
        var ps := params[1..];
        var rest := args[1..];
        ParamsOkSuffix(params, 1);
        ConvertArgsSucceeds(conv, ps, rest);
        assert forall j :: 0 <= j < |rest| ==> TokenType(ps, j) == TokenType(params, j + 1) && rest[j] == args[j + 1];
      }
  }

  /** When it succeeds, a single parameter's value is its token, converted. */
  lemma {:induction false} ConvertArgsSingles(conv: Converter, params: seq<Type>, args: seq<string>)
    requires Sound(conv) && ParamsOk(params) && |params| > 0 && ArityOk(params, |args|)
    requires ConvertArgs(conv, params, args).Success?
    ensures |ConvertArgs(conv, params, args).value| == |params|
    ensures forall i :: 0 <= i < |params| && params[i].Single? ==>
      conv(params[i].scalar, args[i]) == Success(ConvertArgs(conv, params, args).value[i])
    decreases |params|
  {
    if params[0].Single? && |params| > 1 {
      SingleFirst(conv, params, args);
      ConvertArgsSingles(conv, params[1..], args[1..]);
      var vals := ConvertArgs(conv, params, args).value;
      var vals' := ConvertArgs(conv, params[1..], args[1..]).value;
      assert forall i :: 1 <= i < |params| ==> params[i] == params[1..][i - 1] && args[i] == args[1..][i - 1];
      assert forall i :: 1 <= i < |vals| ==> vals[i] == vals'[i - 1];
    }
  }

  /**
   * When it succeeds, a trailing slice holds the remaining tokens, each converted to
   * its element type, in order.
   */
  lemma {:induction false} ConvertArgsSlice(conv: Converter, params: seq<Type>, args: seq<string>)
    requires Sound(conv) && ParamsOk(params) && TrailingSlice(params) && ArityOk(params, |args|)
    requires ConvertArgs(conv, params, args).Success?
    ensures var last := |params| - 1;
      var vals := ConvertArgs(conv, params, args).value;
      |vals| == |params| && vals[last].SliceV? &&
      |vals[last].elems| == |args| - last &&
      forall k :: 0 <= k < |vals[last].elems| ==>
        conv(params[last].elem, args[last + k]) == Success(vals[last].elems[k])
    decreases |params|
  {
    if params[0].SliceOf? {
      ConvertEachScan(conv, params[0].elem, args);
    } else {
      SingleFirst(conv, params, args);
      ConvertArgsSlice(conv, params[1..], args[1..]);
      var vals := ConvertArgs(conv, params, args).value;
      var vals' := ConvertArgs(conv, params[1..], args[1..]).value;
      assert vals[|params| - 1] == vals'[|params| - 2];
      assert forall j :: |params| - 1 <= j < |args| ==> args[1..][j - 1] == args[j];
    }
  }

  /** When it succeeds, there is one value per parameter, of the parameter's type. */
  lemma ConvertArgsTyped(conv: Converter, params: seq<Type>, args: seq<string>)
    requires Sound(conv) && ParamsOk(params) && |params| > 0 && ArityOk(params, |args|)
    requires ConvertArgs(conv, params, args).Success?
    ensures |ConvertArgs(conv, params, args).value| == |params|
    ensures forall i :: 0 <= i < |params| ==> HasParamType(ConvertArgs(conv, params, args).value[i], params[i])
  {
    var vals := ConvertArgs(conv, params, args).value;
    ConvertArgsSingles(conv, params, args);
    if TrailingSlice(params) {
      ConvertArgsSlice(conv, params, args);
      var last := |params| - 1;
      forall x | x in vals[last].elems
        ensures HasType(x, params[last].elem)
      {
        var k :| 0 <= k < |vals[last].elems| && vals[last].elems[k] == x;
        assert conv(params[last].elem, args[last + k]) == Success(x);
      }
    }
    forall i | 0 <= i < |params|
      ensures HasParamType(vals[i], params[i])
    {
      if params[i].Single? {
        assert conv(params[i].scalar, args[i]) == Success(vals[i]);
      } else {
        assert i == |params| - 1;
      }
    }
  }

  /** When it fails, the error is the first failing token's. */
  lemma {:induction false} ConvertArgsFirstFailure(conv: Converter, params: seq<Type>, args: seq<string>)
    requires Sound(conv) && ParamsOk(params) && |params| > 0 && ArityOk(params, |args|)
    requires ConvertArgs(conv, params, args).Failure?
    ensures exists j ::
      0 <= j < |args| &&
      conv(TokenType(params, j), args[j]) == Failure(ConvertArgs(conv, params, args).error) &&
      (forall k :: 0 <= k < j ==> conv(TokenType(params, k), args[k]).Success?)
    decreases |params|
  {
    var r := ConvertArgs(conv, params, args);
    match params[0]
    case SliceOf(e) =>
      ConvertEachScan(conv, e, args);
      assert forall j :: TokenType(params, j) == e;
    case Single(t) =>
      assert TokenType(params, 0) == t;
      if conv(t, args[0]).Success? {
        assert |params| > 1;
        SingleFirst(conv, params, args);
        var ps := params[1..];
        var rest := args[1..];
        var r' := ConvertArgs(conv, ps, rest);
        ConvertArgsFirstFailure(conv, ps, rest);
        var j :| 0 <= j < |rest| && conv(TokenType(ps, j), rest[j]) == Failure(r'.error) &&
          forall k :: 0 <= k < j ==> conv(TokenType(ps, k), rest[k]).Success?;
        TokenTypeShift(params);
        assert forall k :: 0 <= k < |rest| ==> rest[k] == args[k + 1];
        assert conv(TokenType(params, j + 1), args[j + 1]) == Failure(r.error);
      }
  }

  /** Past a first parameter, token k of the rest has the type of token k + 1. */
  lemma TokenTypeShift(params: seq<Type>)
    requires |params| > 1
    ensures forall k: nat :: TokenType(params[1..], k) == TokenType(params, k + 1)
  {
  }

  /**
   * Invoke's checks, in order: a failing predicate denies access before any token is
   * looked at; a command without parameters panics on paramTypes[-1]; a count of
   * tokens that does not fit reports both counts. The body is called exactly when
   * all checks pass and every token converts to its type. Stated for any sound
   * converter, so for TryConverter(s, pf), the one Invocation uses.
   */
  lemma InvokeCalls(cmd: Cmd, s: Session, m: Message, args: seq<string>, conv: Converter)
    requires Sound(conv)
    ensures !cmd.pred.Validate(s, m) ==> InvocationWith(cmd, s, m, args, conv) == Failed(Reported(AccessDenied))
    ensures cmd.pred.Validate(s, m) && cmd.paramTypes == [] ==> InvocationWith(cmd, s, m, args, conv) == Failed(IndexPanic(-1))
    ensures cmd.pred.Validate(s, m) && cmd.paramTypes != [] && !ArityOk(cmd.paramTypes, |args|) ==>
      InvocationWith(cmd, s, m, args, conv) == Failed(Reported(ArgCountMismatch(|cmd.paramTypes|, |args|)))
    ensures InvocationWith(cmd, s, m, args, conv).Called? <==>
      cmd.pred.Validate(s, m) && cmd.paramTypes != [] && ArityOk(cmd.paramTypes, |args|) && ParamsOk(cmd.paramTypes) &&
      forall j :: 0 <= j < |args| ==> conv(TokenType(cmd.paramTypes, j), args[j]).Success?
  {
    CmdParamsOk(cmd);
    if cmd.pred.Validate(s, m) && cmd.paramTypes != [] && ArityOk(cmd.paramTypes, |args|) {
      ConvertArgsSucceeds(conv, cmd.paramTypes, args);
    }
  }

  /**
   * The arguments the body is called with: one per parameter and of its type; a
   * single parameter's is its token converted.
   */
  lemma InvokeArguments(cmd: Cmd, s: Session, m: Message, args: seq<string>, conv: Converter)
    requires Sound(conv) && InvocationWith(cmd, s, m, args, conv).Called?
    ensures var params, vals := cmd.paramTypes, InvocationWith(cmd, s, m, args, conv).args;
      ParamsOk(params) && |vals| == |params| <= |args| &&
      (forall i :: 0 <= i < |params| ==> HasParamType(vals[i], params[i])) &&
      (forall i :: 0 <= i < |params| && params[i].Single? ==> conv(params[i].scalar, args[i]) == Success(vals[i]))
  {
    CmdParamsOk(cmd);
    ConvertArgsTyped(conv, cmd.paramTypes, args);
    ConvertArgsSingles(conv, cmd.paramTypes, args);
  }

  /** A trailing slice argument holds the remaining tokens, converted, in order. */
  lemma InvokeSliceArgument(cmd: Cmd, s: Session, m: Message, args: seq<string>, conv: Converter)
    requires Sound(conv) && InvocationWith(cmd, s, m, args, conv).Called? && TrailingSlice(cmd.paramTypes)
    ensures var params, vals := cmd.paramTypes, InvocationWith(cmd, s, m, args, conv).args;
      var last := |params| - 1;
      ParamsOk(params) && |vals| == |params| && vals[last].SliceV? && |vals[last].elems| == |args| - last &&
      forall k :: 0 <= k < |vals[last].elems| ==> conv(params[last].elem, args[last + k]) == Success(vals[last].elems[k])
  {
    CmdParamsOk(cmd);
    ConvertArgsSlice(conv, cmd.paramTypes, args);
  }

  /**
   * Past the predicate, the parameter check and the count check, an invocation that
   * does not call the body reports, as an UnmarshalError, the cause of the first
   * token that does not convert; every token before it converted.
   */
  lemma InvokeFirstFailure(cmd: Cmd, s: Session, m: Message, args: seq<string>, conv: Converter)
    requires Sound(conv)
    requires cmd.pred.Validate(s, m) && cmd.paramTypes != [] && ArityOk(cmd.paramTypes, |args|)
    requires !InvocationWith(cmd, s, m, args, conv).Called?
    ensures ParamsOk(cmd.paramTypes)
    ensures exists j ::
      0 <= j < |args| && conv(TokenType(cmd.paramTypes, j), args[j]).Failure? &&
      InvocationWith(cmd, s, m, args, conv) ==
        Failed(Reported(UnmarshalError(conv(TokenType(cmd.paramTypes, j), args[j]).error))) &&
      (forall k :: 0 <= k < j ==> conv(TokenType(cmd.paramTypes, k), args[k]).Success?)
  {
    CmdParamsOk(cmd);
    ConvertArgsFirstFailure(conv, cmd.paramTypes, args);
  }

  /**
   * When every token converts, the values are the converted tokens, those from the
   * trailing slice's position on gathered into the slice.
   */
  lemma AllConverted(conv: Converter, params: seq<Type>, args: seq<string>, vals: seq<Val>)
    requires Sound(conv) && ParamsOk(params) && TrailingSlice(params) && ArityOk(params, |args|)
    requires |vals| == |args|
    requires forall j :: 0 <= j < |args| ==> conv(TokenType(params, j), args[j]) == Success(vals[j])
    ensures var last := |params| - 1;
      ConvertArgs(conv, params, args) == Success(vals[..last] + [SliceV(vals[last..])])
  {
    var last := |params| - 1;
    ConvertArgsSucceeds(conv, params, args);
    var got := ConvertArgs(conv, params, args).value;
    var want := vals[..last] + [SliceV(vals[last..])];
    assert |got| == |want| && got[last] == want[last] by {
      ConvertArgsSlice(conv, params, args);
      forall k | 0 <= k < |args| - last
        ensures got[last].elems[k] == vals[last..][k]
      {
        assert TokenType(params, last + k) == params[last].elem;
      }
    }
    forall i | 0 <= i < last
      ensures got[i] == want[i]
    {
      ConvertArgsSingles(conv, params, args);
      assert params[i].Single? && TokenType(params, i) == params[i].scalar;
    }
    assert got == want;
  }
}
