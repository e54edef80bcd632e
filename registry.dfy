/**
 * CmdRegister: commands by name, aliases one hop deep, guarded insertion, and the
 * message handler that looks a command up from a prefixed message and invokes it.
 */
module Registry {
  import opened Wrappers
  import opened Discord
  import opened Text
  import opened Convert
  import opened Commands
  import opened Invocations

  /** Why Add or Alias refused; both name the name being registered. */
  datatype RegisterError = AlreadyExists(name: string) | DoesNotExist(name: string)

  /** What Handle did with a message. */
  datatype Dispatch =
    | FromSelf
    | NotPrefixed
    | UnknownCommand(name: string)
      /** The command was invoked; a failure was handed to the handler, if there was one. */
    | Dispatched(name: string, outcome: Outcome, notified: Option<(Handler, InvokeError)>)

  /** The command name and the argument tokens of a prefixed message. */
  function CommandLine(content: string, pfx: string): (line: (string, seq<string>))
    ensures |line.1| == |Split(content, ' ')| - 1
  {
    var tokens := Split(content, ' ');
    (RemoveFirst(tokens[0], pfx), tokens[1..])
  }

  /**
   * A message written as the prefix, the name and space-separated tokens reads back
   * as that name and those tokens; a token may be empty, so consecutive spaces give
   * empty tokens.
   */
  lemma CommandLineOf(pfx: string, name: string, args: seq<string>)
    requires ' ' !in pfx + name
    requires forall k :: 0 <= k < |args| ==> ' ' !in args[k]
    ensures CommandLine(Join([pfx + name] + args, ' '), pfx) == (name, args)
  {
    var pieces := [pfx + name] + args;
    forall k | 0 <= k < |pieces| ensures ' ' !in pieces[k] {
      if k > 0 {
        assert pieces[k] == args[k - 1];
      }
    }
    SplitJoin(pieces, ' ');
    assert pieces[1..] == args;
    StripPrefix(pfx, name);
  }

  /** Cutting the first occurrence of pfx out of pfx + name leaves name. */
  lemma StripPrefix(pfx: string, name: string)
    ensures HasPrefix(pfx + name, pfx)
    ensures RemoveFirst(pfx + name, pfx) == name
  {
    assert HasPrefix(pfx + name, pfx) by {
      assert (pfx + name)[..|pfx|] == pfx;
    }
    RemoveLeadingPrefix(pfx + name, pfx);
    assert (pfx + name)[|pfx|..] == name;
  }

  class CmdRegister {
    var cmds: map<string, Cmd>
    var aliases: map<string, string>

    /** Register: an empty register. */
    constructor Register()
      ensures cmds == map[] && aliases == map[]
    {
      cmds := map[];
      aliases := map[];
    }

    /** Canon: the alias's target when it has a non-empty one, else the name itself; one hop only. */
    function Canon(name: string): (canon: string)
      reads this
      ensures canon == name || (name in aliases && canon == aliases[name] != "")
      ensures name in aliases && aliases[name] != "" ==> canon == aliases[name]
    {
      var target := if name in aliases then aliases[name] else "";
      if target != "" then target else name
    }

    /** Get: the command stored under the canonical name, or nil. */
    function Get(name: string): (r: Option<Cmd>)
      reads this
      ensures r.Some? <==> Canon(name) in cmds
      ensures r.Some? ==> r.value == cmds[Canon(name)]
    {
      if Canon(name) in cmds then Some(cmds[Canon(name)]) else None
    }

    /** Every alias points at a name that resolves. */
    ghost predicate Valid()
      reads this
    {
      forall a :: a in aliases && aliases[a] != "" ==> Get(aliases[a]).Some?
    }

    /**
     * Add: refuse a name that already resolves, an alias included; otherwise store
     * the command under the name itself.
     */
    method Add(name: string, cmd: Cmd) returns (err: Option<RegisterError>)
      modifies this
      ensures old(Get(name)).Some? ==> err == Some(AlreadyExists(name)) && cmds == old(cmds)
      ensures old(Get(name)).None? ==> err.None? && cmds == old(cmds)[name := cmd]
      ensures aliases == old(aliases)
      ensures old(Valid()) ==> Valid()
      ensures old(Valid()) ==> forall x :: old(Get(x)).Some? ==> Get(x) == old(Get(x))
    {
      if Get(name).Some? {
        return Some(AlreadyExists(name));
      }
      cmds := cmds[name := cmd];
      return None;
    }

    /**
     * Alias: refuse when dest does not resolve (the error names name, not dest) or
     * when name already resolves; otherwise point name at dest.
     */
    method Alias(name: string, dest: string) returns (err: Option<RegisterError>)
      modifies this
      ensures old(Get(dest)).None? ==> err == Some(DoesNotExist(name)) && aliases == old(aliases)
      ensures old(Get(dest)).Some? && old(Get(name)).Some? ==> err == Some(AlreadyExists(name)) && aliases == old(aliases)
      ensures old(Get(dest)).Some? && old(Get(name)).None? ==> err.None? && aliases == old(aliases)[name := dest]
      ensures cmds == old(cmds)
      ensures err.None? && dest != "" ==> Get(name) == if dest in cmds then Some(cmds[dest]) else None
      ensures old(Valid()) ==> Valid()
      ensures old(Valid()) ==> forall x :: old(Get(x)).Some? ==> Get(x) == old(Get(x))
    {
      if Get(dest).None? {
        return Some(DoesNotExist(name));
      }
      if Get(name).Some? {
        return Some(AlreadyExists(name));
      }
      aliases := aliases[name := dest];
      return None;
    }

    /** What Handle does with a message, as a value. */
    function Handling(s: Session, msg: Message, pfx: string, errHandler: Option<Handler>, pf: FloatDecoder): Dispatch
      reads this
    {
      if msg.authorId == s.selfId then FromSelf
      else if !HasPrefix(msg.content, pfx) then NotPrefixed
      else
        var (name, args) := CommandLine(msg.content, pfx);
        Run(name, args, s, msg, errHandler, pf)
    }

    /** Looking the name up, invoking what it resolves to and choosing the error handler. */
    function Run(name: string, args: seq<string>, s: Session, msg: Message, errHandler: Option<Handler>,
                 pf: FloatDecoder): Dispatch
      reads this
    {
      match Get(name)
      case None => UnknownCommand(name)
      case Some(cmd) =>
        var outcome := Invocation(cmd, s, msg, args, pf);
        var handler := if cmd.errHandler.Some? then cmd.errHandler else errHandler;
        Dispatched(name, outcome, if outcome.Failed? && handler.Some? then Some((handler.value, outcome.failure)) else None)
    }

    /**
     * Handle: ignore the session's own messages and unprefixed ones; split on single
     * spaces, strip the prefix from the first token and look the command up; invoke
     * it on the other tokens, and hand a failure to the command's own error handler,
     * else to the register-wide one.
     */
    method Handle(s: Session, msg: Message, pfx: string, errHandler: Option<Handler>, pf: FloatDecoder)
      returns (d: Dispatch)
      ensures d == Handling(s, msg, pfx, errHandler, pf)
    {
      if msg.authorId == s.selfId {
        return FromSelf;
      }
      if !HasPrefix(msg.content, pfx) {
        return NotPrefixed;
      }
      var args := Split(msg.content, ' ');
      var str := args[0];
      str := RemoveFirst(str, pfx);
      var cmd := Get(str);
      if cmd.None? {
        return UnknownCommand(str);
      }
      var outcome := Invoke(cmd.value, s, msg, args[1..], pf);
      var handler := errHandler;
      if cmd.value.errHandler.Some? {
        handler := cmd.value.errHandler;
      }
      if outcome.Failed? && handler.Some? {
        return Dispatched(str, outcome, Some((handler.value, outcome.failure)));
      }
      return Dispatched(str, outcome, None);
    }
  }

  /**
   * A message from someone else, written as the prefix, a command name and
   * space-separated tokens, invokes the command the name resolves to on exactly
   * those tokens; a name that resolves to nothing is ignored. A failure goes to the
   * command's own handler when it has one, else to the register-wide handler, and
   * nowhere when neither is set.
   */
  lemma HandleDispatches(reg: CmdRegister, s: Session, msg: Message, pfx: string, errHandler: Option<Handler>,
                         pf: FloatDecoder, name: string, args: seq<string>)
    requires msg.authorId != s.selfId
    requires msg.content == Join([pfx + name] + args, ' ')
    requires ' ' !in pfx + name
    requires forall k :: 0 <= k < |args| ==> ' ' !in args[k]
    ensures reg.Get(name).None? ==> reg.Handling(s, msg, pfx, errHandler, pf) == UnknownCommand(name)
    ensures reg.Get(name).Some? ==>
      var cmd := reg.Get(name).value;
      var d := reg.Handling(s, msg, pfx, errHandler, pf);
      d.Dispatched? && d.name == name && d.outcome == Invocation(cmd, s, msg, args, pf) &&
      (d.notified.Some? <==> d.outcome.Failed? && (cmd.errHandler.Some? || errHandler.Some?)) &&
      (d.notified.Some? ==>
         d.notified.value.1 == d.outcome.failure &&
         d.notified.value.0 == if cmd.errHandler.Some? then cmd.errHandler.value else errHandler.value)
  {
    CommandLineOf(pfx, name, args);
    StripPrefix(pfx, name);
    JoinKeepsPrefix([pfx + name] + args, pfx, ' ');
    assert reg.Handling(s, msg, pfx, errHandler, pf) == reg.Run(name, args, s, msg, errHandler, pf);
  }

  /** Joined pieces start with any prefix of the first piece. */
  lemma JoinKeepsPrefix(pieces: seq<string>, pfx: string, sep: char)
    requires |pieces| > 0 && HasPrefix(pieces[0], pfx)
    ensures HasPrefix(Join(pieces, sep), pfx)
  {
    JoinKeepsFirst(pieces, sep);
    var s := Join(pieces, sep);
    assert s[..|pfx|] == s[..|pieces[0]|][..|pfx|];
  }

  /** The text of joined pieces starts with the first piece. */
  lemma {:induction false} JoinKeepsFirst(pieces: seq<string>, sep: char)
    requires |pieces| > 0
    ensures HasPrefix(Join(pieces, sep), pieces[0])
  {
    var s := Join(pieces, sep);
    if |pieces| > 1 {
      assert s == pieces[0] + ([sep] + Join(pieces[1..], sep));
    }
    assert s[..|pieces[0]|] == pieces[0];
  }

  /** The session's own messages and messages without the prefix are ignored. */
  lemma HandleIgnores(reg: CmdRegister, s: Session, msg: Message, pfx: string, errHandler: Option<Handler>, pf: FloatDecoder)
    ensures msg.authorId == s.selfId ==> reg.Handling(s, msg, pfx, errHandler, pf) == FromSelf
    ensures msg.authorId != s.selfId && !HasPrefix(msg.content, pfx) ==>
      reg.Handling(s, msg, pfx, errHandler, pf) == NotPrefixed
    ensures reg.Handling(s, msg, pfx, errHandler, pf).Dispatched? ==>
      msg.authorId != s.selfId && HasPrefix(msg.content, pfx) &&
      reg.Get(reg.Handling(s, msg, pfx, errHandler, pf).name).Some?
  {
  }
}
