/**
 * Commands backed by a function: the check of the function's signature that
 * builds one, the predicate that gates it, and its invocation on the tokens of a
 * message.
 */
module Commands {
  import opened Wrappers
  import opened Discord
  import opened Misc
  import opened Types
  import opened Errors
  import opened Convert

  /**
   * CmdPredicate: a permission bitfield (Go int, taken as its 64-bit pattern) and
   * an optional custom check.
   */
  datatype Predicate = Predicate(permissions: bv64, custom: Option<(Session, Message) -> bool>)
  {
    /** The custom check is set and answers true, which denies. */
    predicate Vetoes(s: Session, m: Message) {
      custom.Some? && custom.value(s, m)
    }

    /**
     * CmdPredicate.Validate: a non-zero bitfield admits the guild's owner and a
     * member holding one of the bits (a failed lookup counting as no); then the
     * custom check must not answer true.
     */
    function Validate(s: Session, m: Message): (ok: bool)
      ensures permissions == 0 && custom.None? ==> ok
      ensures Vetoes(s, m) ==> !ok
      ensures ok <==>
        (permissions == 0 ||
         (m.guildId in s.guilds && s.guilds[m.guildId].ownerId == m.authorId) ||
         HoldsPermission(s, m.guildId, m.authorId, permissions)) &&
        !Vetoes(s, m)
    {
      PermissionCheckGrants(s, m.guildId, m.authorId, permissions);
      if permissions != 0 then
        var owner := IsOwner(s, m.guildId, m.authorId).yes;
        var perm := PermissionCheck(s, m.guildId, m.authorId, permissions).yes;
        if !owner && !perm then false else !Vetoes(s, m)
      else !Vetoes(s, m)
    }
  }

  /** A CmdErrorHandler, known by name: the model records which one is called. */
  datatype Handler = Handler(name: string)

  type NonFuncKind = k: Kind | !k.Func? witness Invalid

  /** The fn handed to Command: a function with its parameter types, or a value of another kind. */
  datatype Fn = Function(name: string, ins: seq<Type>) | NonFunction(kind: NonFuncKind)

  /** Why Command refused fn. */
  datatype SignatureError =
    | NotAFunction(kind: Kind)
    | NotEnoughArguments
    | FirstNotSession
    | SecondNotMessageCreate
    | UnsupportedKind(kind: Kind)
    | SliceNotLast

  /** The scalar a parameter's tokens convert to: the parameter's own, or its slice's element. */
  function Element(t: Type): Scalar {
    match t
    case Single(x) => x
    case SliceOf(e) => e
  }

  /** Every command parameter has a legal kind and only the last may be a slice. */
  predicate ParamsOk(params: seq<Type>) {
    forall i :: 0 <= i < |params| ==>
      !Illegal(ScalarKind(Element(params[i]))) && (params[i].SliceOf? ==> i == |params| - 1)
  }

  /** What Command finds wrong with parameter i (i >= 2), in the order it checks. */
  function ParamProblem(ins: seq<Type>, i: nat): Option<SignatureError>
    requires 2 <= i < |ins|
  {
    var kind := KindOf(ins[i]);
    if Illegal(kind) then Some(UnsupportedKind(kind))
    else if ins[i].SliceOf? then
      if i != |ins| - 1 then Some(SliceNotLast)
      else if Illegal(ScalarKind(ins[i].elem)) then Some(UnsupportedKind(kind))
      else None
    else None
  }

  /** The problem with the first parameter from i on that has one. */
  function FirstProblem(ins: seq<Type>, i: nat): Option<SignatureError>
    requires 2 <= i <= |ins|
    decreases |ins| - i
  {
    if i == |ins| then None
    else if ParamProblem(ins, i).Some? then ParamProblem(ins, i)
    else FirstProblem(ins, i + 1)
  }

  /** The outcome of Command on fn: the command parameters, or the first check that fails. */
  function Signature(fn: Fn): Result<seq<Type>, SignatureError> {
    if fn.NonFunction? then Failure(NotAFunction(fn.kind))
    else if |fn.ins| < 2 then Failure(NotEnoughArguments)
    else if fn.ins[0] != SESSION_TYPE then Failure(FirstNotSession)
    else if fn.ins[1] != MESSAGE_CREATE_TYPE then Failure(SecondNotMessageCreate)
    else
      match FirstProblem(fn.ins, 2)
      case Some(e) => Failure(e)
      case None => Success(fn.ins[2..])
  }

  /** FirstProblem finds the earliest problem, and none exactly when no parameter has one. */
  lemma {:induction false} FirstProblemScan(ins: seq<Type>, i: nat)
    requires 2 <= i <= |ins|
    ensures FirstProblem(ins, i).None? <==> forall j :: i <= j < |ins| ==> ParamProblem(ins, j).None?
    ensures FirstProblem(ins, i).Some? ==>
      exists j :: i <= j < |ins| && ParamProblem(ins, j) == FirstProblem(ins, i) &&
        forall k :: i <= k < j ==> ParamProblem(ins, k).None?
    decreases |ins| - i
  {
    if i < |ins| && ParamProblem(ins, i).None? {
      FirstProblemScan(ins, i + 1);
      if FirstProblem(ins, i).Some? {
        var j :| i + 1 <= j < |ins| && ParamProblem(ins, j) == FirstProblem(ins, i + 1) &&
          forall k :: i + 1 <= k < j ==> ParamProblem(ins, k).None?;
        assert forall k :: i <= k < j ==> ParamProblem(ins, k).None?;
      }
    }
  }

  /**
   * Command accepts a function exactly when it is a function whose first two
   * parameters are the session and the message event and whose other parameters
   * are legal, a slice only last; the command parameters are then those others, in
   * order. A refusal names the first parameter at fault.
   */
  lemma SignatureAccepts(fn: Fn)
    ensures Signature(fn).Success? <==>
      fn.Function? && |fn.ins| >= 2 && fn.ins[0] == SESSION_TYPE && fn.ins[1] == MESSAGE_CREATE_TYPE &&
      ParamsOk(fn.ins[2..])
    ensures Signature(fn).Success? ==> Signature(fn).value == fn.ins[2..]
    ensures fn.NonFunction? ==> Signature(fn) == Failure(NotAFunction(fn.kind))
    ensures (fn.Function? && |fn.ins| >= 2 && fn.ins[0] == SESSION_TYPE && fn.ins[1] == MESSAGE_CREATE_TYPE &&
             Signature(fn).Failure?) ==>
      exists j :: 2 <= j < |fn.ins| && Some(Signature(fn).error) == ParamProblem(fn.ins, j) &&
        forall k :: 2 <= k < j ==> ParamProblem(fn.ins, k).None?
  {
    if fn.Function? && |fn.ins| >= 2 {
      var ins := fn.ins;
      FirstProblemScan(ins, 2);
      var params := ins[2..];
      assert forall i :: 0 <= i < |params| ==> params[i] == ins[i + 2];
      assert ParamsOk(params) <==> forall j :: 2 <= j < |ins| ==> ParamProblem(ins, j).None? by {
        if ParamsOk(params) {
          forall j | 2 <= j < |ins|
            ensures ParamProblem(ins, j).None?
          {
            assert params[j - 2] == ins[j];
          }
        }
        if forall j :: 2 <= j < |ins| ==> ParamProblem(ins, j).None? {
          forall i | 0 <= i < |params|
            ensures !Illegal(ScalarKind(Element(params[i]))) && (params[i].SliceOf? ==> i == |params| - 1)
          {
            assert ParamProblem(ins, i + 2).None?;
          }
        }
      }
    }
  }

  /**
   * FnCmd, as Command builds it: the body fn, its help text, a predicate, an
   * optional error handler, and the parameter types after the first two.
   */
  datatype FnCmd = FnCmd(
    help: string,
    fn: Fn,
    pred: Predicate,
    errHandler: Option<Handler>,
    paramTypes: seq<Type>)
  {
    /** paramTypes is what Command computed from fn (it is unexported in Go). */
    predicate Valid() {
      Signature(fn).Success? && Signature(fn).value == paramTypes
    }
  }

  /** A command Command could have built. */
  type Cmd = c: FnCmd | c.Valid()
    witness FnCmd("", Function("", [SESSION_TYPE, MESSAGE_CREATE_TYPE]), Predicate(0, None), None, [])

  lemma CmdParamsOk(cmd: Cmd)
    ensures ParamsOk(cmd.paramTypes)
  {
    SignatureAccepts(cmd.fn);
  }

  /** Command: check fn's signature and collect the command parameters. */
  method Command(fn: Fn, help: string, errHandler: Option<Handler>) returns (r: Result<Cmd, SignatureError>)
    ensures r.Success? <==> Signature(fn).Success?
    ensures r.Success? ==> r.value == FnCmd(help, fn, Predicate(0, None), errHandler, Signature(fn).value)
    ensures r.Failure? ==> r.error == Signature(fn).error
  {
    if fn.NonFunction? {
      return Failure(NotAFunction(fn.kind));
    }
    var ins := fn.ins;
    if |ins| < 2 {
      return Failure(NotEnoughArguments);
    }
    if ins[0] != SESSION_TYPE {
      return Failure(FirstNotSession);
    }
    if ins[1] != MESSAGE_CREATE_TYPE {
      return Failure(SecondNotMessageCreate);
    }
    var params: seq<Type> := [];
    var c := 2;
    while c < |ins|
      invariant 2 <= c <= |ins|
      invariant params == ins[2..c]
      invariant FirstProblem(ins, 2) == FirstProblem(ins, c)
    {
      var param := ins[c];
      var kind := KindOf(param);
      if Illegal(kind) {
        return Failure(UnsupportedKind(kind));
      } else if kind == Slice {
        if c != |ins| - 1 {
          return Failure(SliceNotLast);
        }
        if Illegal(ScalarKind(param.elem)) {
          return Failure(UnsupportedKind(kind));
        }
      }
      params := params + [param];
      c := c + 1;
    }
    FirstProblemScan(ins, c);
    var cmd: Cmd := FnCmd(help, fn, Predicate(0, None), errHandler, params);
    return Success(cmd);
  }

  /** PredicatedCommand: Command, then the predicate is set on the command it built. */
  method PredicatedCommand(fn: Fn, help: string, errHandler: Option<Handler>, pred: Predicate)
    returns (r: Result<Cmd, SignatureError>)
    ensures r.Success? <==> Signature(fn).Success?
    ensures r.Success? ==> r.value == FnCmd(help, fn, pred, errHandler, Signature(fn).value)
    ensures r.Failure? ==> r.error == Signature(fn).error
  {
    r := Command(fn, help, errHandler);
    if r.Success? {
      var cmd: Cmd := r.value.(pred := pred);
      r := Success(cmd);
    }
  }

  /** MustCommand: Command for a signature known to be accepted (Go panics otherwise). */
  method MustCommand(fn: Fn, help: string, errHandler: Option<Handler>) returns (cmd: Cmd)
    requires Signature(fn).Success?
    ensures cmd == FnCmd(help, fn, Predicate(0, None), errHandler, Signature(fn).value)
  {
    var r := Command(fn, help, errHandler);
    cmd := r.value;
  }

  /** MustPredicatedCommand: PredicatedCommand for a signature known to be accepted. */
  method MustPredicatedCommand(fn: Fn, help: string, errHandler: Option<Handler>, pred: Predicate)
    returns (cmd: Cmd)
    requires Signature(fn).Success?
    ensures cmd == FnCmd(help, fn, pred, errHandler, Signature(fn).value)
  {
    var r := PredicatedCommand(fn, help, errHandler, pred);
    cmd := r.value;
  }
}
