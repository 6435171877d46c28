/**
 * The mboxctl control client: it encodes one control command per selected
 * option, sends it to the flash-bridge daemon over the system message bus,
 * validates the reply and turns the daemon's status byte into a result.
 *
 * The message bus is an oracle: the daemon's answer to a request is a
 * function of every request sent on the connection so far.
 */
module MboxCtl {
  import opened Base

  // ---------------------------------------------------------------------
  // Constants shared with the daemon
  // ---------------------------------------------------------------------

  /** The byte constants of the daemon's bus interface header (mbox_dbus.h).
      That header is not part of this model, so their values are a parameter. */
  datatype Codes = Codes(
    success: byte, eInternal: byte, eInval: byte, eRejected: byte, eHardware: byte,
    cPing: byte, cStatus: byte, cReset: byte, cSuspend: byte, cResume: byte, cModified: byte,
    statusActive: byte, resumeNotModified: byte, resumeFlashModified: byte)
  {
    /** The five status codes label the cases of one C switch, so they are
        distinct; success is the byte 0 (an assumption about the header). */
    predicate Valid()
    {
      && success == 0
      && success != eInternal && success != eInval && success != eRejected && success != eHardware
      && eInternal != eInval && eInternal != eRejected && eInternal != eHardware
      && eInval != eRejected && eInval != eHardware
      && eRejected != eHardware
    }
  }

  /** errorVal is one of the five status codes parse_error knows. */
  predicate IsKnownStatus(k: Codes, errorVal: int)
  {
    errorVal == k.success as int || errorVal == k.eInternal as int ||
    errorVal == k.eInval as int || errorVal == k.eRejected as int ||
    errorVal == k.eHardware as int
  }

  /** parse_error: the text shown for a daemon status code. */
  function ParseError(k: Codes, errorVal: int): (text: string)
    requires k.Valid()
    ensures text == "Success" <==> errorVal == k.success as int
    ensures text == "Failed - Internal Error" <==> errorVal == k.eInternal as int
    ensures text == "Failed - Invalid Command or Request" <==> errorVal == k.eInval as int
    ensures text == "Failed - Request Rejected by Daemon" <==> errorVal == k.eRejected as int
    ensures text == "Failed - BMC Hardware Error" <==> errorVal == k.eHardware as int
    ensures text == "Failed - Unknown Error" <==> !IsKnownStatus(k, errorVal)
  {
    if errorVal == k.success as int then "Success"
    else if errorVal == k.eInternal as int then "Failed - Internal Error"
    else if errorVal == k.eInval as int then "Failed - Invalid Command or Request"
    else if errorVal == k.eRejected as int then "Failed - Request Rejected by Daemon"
    else if errorVal == k.eHardware as int then "Failed - BMC Hardware Error"
    else "Failed - Unknown Error"
  }

  // ---------------------------------------------------------------------
  // Wire messages and the bus
  // ---------------------------------------------------------------------

  /** A request as it goes on the bus: the command byte and the argument bytes. */
  datatype Request = Request(cmd: byte, args: seq<byte>)

  /** A positive errno value; sd-bus reports failure as its negation. */
  type Errno = x: int | x > 0 witness 1

  /** What the bus yields for one request. CallFailed: building the message,
      appending the command or the arguments, the call itself or reading the
      status byte failed. ArgsUnreadable: the status byte was read but the
      argument array could not be. Reply: the status byte and the argument array. */
  datatype BusReply =
    | CallFailed(errno: Errno)
    | ArgsUnreadable(status: byte, errno: Errno)
    | Reply(status: byte, args: seq<byte>)

  /** The daemon behind the bus: its answer given all requests attempted so far,
      the last one being the request answered. */
  type Daemon = seq<Request> -> BusReply

  /** struct mbox_dbus_msg: a command byte and num_args argument bytes. */
  class DbusMsg {
    var cmd: byte
    var numArgs: nat
    var args: array<byte>

    predicate Valid()
      reads this
    {
      args.Length == numArgs
    }

    /** A message initialised with { 0 }: command 0 and no arguments. */
    constructor ()
      ensures Valid() && cmd == 0 && numArgs == 0 && fresh(args)
    {
      cmd := 0;
      numArgs := 0;
      args := new byte[0];
    }
  }

  /** The value send_dbus_msg returns for a reply when num_args reply
      arguments are expected: the transport's own error, -E_DBUS_INTERNAL
      for a reply with too few arguments, or 0 for an accepted reply. */
  function SendRc(k: Codes, expected: nat, reply: BusReply): (rc: int)
    requires k.Valid()
    ensures rc <= 0
    ensures rc == 0 <==> reply.Reply? && |reply.args| >= expected
    ensures !reply.Reply? ==> rc == -(reply.errno as int)
    ensures reply.Reply? && |reply.args| < expected ==> rc == -(k.eInternal as int)
  {
    match reply
    case CallFailed(e) => -(e as int)
    case ArgsUnreadable(_, e) => -(e as int)
    case Reply(_, args) => if |args| < expected then -(k.eInternal as int) else 0
  }

  // ---------------------------------------------------------------------
  // Commands and what their handlers do
  // ---------------------------------------------------------------------

  /** The daemon commands the client can issue, one per handler. */
  datatype Command =
    | PingCmd | StatusCmd | ResetCmd | SuspendCmd
    | ResumeCmd(arg: Option<string>)
    | ModifiedCmd

  /** The prefix of the line a handler prints. */
  function Label(c: Command): string
  {
    match c
    case PingCmd => "Ping"
    case StatusCmd => "Daemon Status"
    case ResetCmd => "Reset"
    case SuspendCmd => "Suspend"
    case ResumeCmd(_) => "Resume"
    case ModifiedCmd => "Flash Modified"
  }

  /** The number of reply arguments a handler expects. */
  function ReplyArity(c: Command): (n: nat)
    ensures n == 1 <==> c.StatusCmd?
    ensures n <= 1
  {
    if c.StatusCmd? then 1 else 0
  }

  /** The first character the resume argument points at ('\0' for ""). */
  function FirstChar(arg: string): char
  {
    if arg == [] then '\0' else arg[0]
  }

  /** The resume guard `!arg || *arg != '0' || *arg != '1'`. */
  predicate ResumeGuard(arg: Option<string>)
  {
    arg.None? || FirstChar(arg.value) != '0' || FirstChar(arg.value) != '1'
  }

  /** The guard is written with ||, so it holds for every argument: no
      character is both '0' and '1'. */
  lemma ResumeGuardAlwaysHolds(arg: Option<string>)
    ensures ResumeGuard(arg)
  {
  }

  /** The resume flag the handler would send: '1' means flash modified,
      any other first character means not modified. */
  function ResumeFlag(k: Codes, c: char): (flag: byte)
    ensures c == '1' ==> flag == k.resumeFlashModified
    ensures c != '1' ==> flag == k.resumeNotModified
  {
    if c == '1' then k.resumeFlashModified else k.resumeNotModified
  }

  /** The request a handler sends, or None when it returns without one:
      only resume sends nothing, and no request carries an argument. */
  function RequestOf(k: Codes, c: Command): (r: Option<Request>)
    ensures r.None? <==> c.ResumeCmd?
    ensures r.Some? ==> r.value.args == []
  {
    match c
    case PingCmd => Some(Request(k.cPing, []))
    case StatusCmd => Some(Request(k.cStatus, []))
    case ResetCmd => Some(Request(k.cReset, []))
    case SuspendCmd => Some(Request(k.cSuspend, []))
    case ResumeCmd(arg) =>
      if ResumeGuard(arg) then None
      else (match arg
            case None => None
            case Some(a) => Some(Request(k.cResume, [ResumeFlag(k, FirstChar(a))])))
    case ModifiedCmd => Some(Request(k.cModified, []))
  }

  /** Every command but resume sends its own command byte with no
      arguments; resume sends nothing. */
  lemma RequestEncoding(k: Codes, c: Command)
    ensures c.ResumeCmd? <==> RequestOf(k, c).None?
    ensures c.PingCmd? ==> RequestOf(k, c) == Some(Request(k.cPing, []))
    ensures c.StatusCmd? ==> RequestOf(k, c) == Some(Request(k.cStatus, []))
    ensures c.ResetCmd? ==> RequestOf(k, c) == Some(Request(k.cReset, []))
    ensures c.SuspendCmd? ==> RequestOf(k, c) == Some(Request(k.cSuspend, []))
    ensures c.ModifiedCmd? ==> RequestOf(k, c) == Some(Request(k.cModified, []))
  {
    if c.ResumeCmd? {
      ResumeGuardAlwaysHolds(c.arg);
    }
  }

  /** A handler's return value and the line it prints on standard output. */
  datatype HandlerResult = HandlerResult(rc: int, line: Option<string>)

  /** What a handler that sent a request returns and prints, given the reply. */
  function Outcome(k: Codes, c: Command, reply: BusReply): (o: HandlerResult)
    requires k.Valid() && !c.ResumeCmd?
    // transport errors propagate unchanged and print nothing
    ensures !reply.Reply? ==> o == HandlerResult(-(reply.errno as int), None)
    // a short reply is an internal error
    ensures reply.Reply? && |reply.args| < ReplyArity(c) ==>
              o == HandlerResult(-(k.eInternal as int), None)
    // an accepted reply: the result is the negated status byte
    ensures reply.Reply? && |reply.args| >= ReplyArity(c) ==>
              o.rc == -(reply.status as int) && -255 <= o.rc <= 0 &&
              (o.rc == 0 <==> reply.status == 0)
    ensures reply.Reply? && |reply.args| >= ReplyArity(c) && !c.StatusCmd? ==>
              o.line == Some(Label(c) + ": " + ParseError(k, reply.status as int))
    // the status command prints only on success, the state of the daemon
    ensures c.StatusCmd? ==>
              (o.line == Some("Daemon Status: Active") <==>
                 reply.Reply? && |reply.args| >= 1 && reply.status == k.success &&
                 reply.args[0] == k.statusActive)
    ensures c.StatusCmd? ==>
              (o.line == Some("Daemon Status: Suspended") <==>
                 reply.Reply? && |reply.args| >= 1 && reply.status == k.success &&
                 reply.args[0] != k.statusActive)
    ensures c.StatusCmd? ==>
              (o.line == None <==> !(reply.Reply? && |reply.args| >= 1 && reply.status == k.success))
  {
    var rc := SendRc(k, ReplyArity(c), reply);
    if rc < 0 then HandlerResult(rc, None)
    else if c.StatusCmd? then
      HandlerResult(-(reply.status as int),
        if reply.status != k.success then None
        else if reply.args[0] == k.statusActive then Some("Daemon Status: Active")
        else Some("Daemon Status: Suspended"))
    else
      HandlerResult(-(reply.status as int), Some(Label(c) + ": " + ParseError(k, reply.status as int)))
  }

  /** For the commands that print a status text, the handler returns 0 exactly
      when it prints "Success" (this rests on success being the byte 0). */
  lemma ZeroIffSuccessText(k: Codes, c: Command, reply: BusReply)
    requires k.Valid() && !c.ResumeCmd? && !c.StatusCmd?
    ensures Outcome(k, c, reply).rc == 0 <==> Outcome(k, c, reply).line == Some(Label(c) + ": Success")
  {
    if !reply.Reply? {
      return;
    }
    var text := ParseError(k, reply.status as int);
    var prefix := Label(c) + ": ";
    assert Outcome(k, c, reply) == HandlerResult(-(reply.status as int), Some(prefix + text));
    assert Label(c) + ": Success" == prefix + "Success";
    if prefix + text == prefix + "Success" {
      assert text == (prefix + text)[|prefix|..] == (prefix + "Success")[|prefix|..] == "Success";
    }
  }

  // ---------------------------------------------------------------------
  // The command-line options and the dispatch loop
  // ---------------------------------------------------------------------

  /** The options getopt_long hands to the dispatch loop, already decoded;
      Unrecognized is any other option character. */
  datatype CmdOpt =
    | Ping | Status | Reset | PointToFlash | Suspend
    | Resume(arg: Option<string>)
    | FlashModified | Version | Help | Unrecognized

  /** h and unrecognized options print the usage text and exit(0). */
  predicate Exits(o: CmdOpt)
  {
    o.Help? || o.Unrecognized?
  }

  /** The handler an option runs; r and f share the reset handler. */
  function HandlerOf(o: CmdOpt): Option<Command>
  {
    match o
    case Ping => Some(PingCmd)
    case Status => Some(StatusCmd)
    case Reset => Some(ResetCmd)
    case PointToFlash => Some(ResetCmd)
    case Suspend => Some(SuspendCmd)
    case Resume(arg) => Some(ResumeCmd(arg))
    case FlashModified => Some(ModifiedCmd)
    case Version => None
    case Help => None
    case Unrecognized => None
  }

  /** The latest rc and the requests attempted so far. */
  datatype Run = Run(rc: int, sent: seq<Request>)

  /** The effect of one option that does not exit: v and e leave the bus
      alone, every other option adds exactly one request to those sent. */
  function Step(k: Codes, d: Daemon, sent: seq<Request>, o: CmdOpt): (r: Run)
    requires k.Valid() && !Exits(o)
    ensures r.sent == sent <==> o.Version? || o.Resume?
    ensures sent <= r.sent && |r.sent| <= |sent| + 1
  {
    match HandlerOf(o)
    case None => Run(0, sent)
    case Some(c) =>
      match RequestOf(k, c)
      case None => Run(-(k.eInval as int), sent)
      case Some(req) => Run(Outcome(k, c, d(sent + [req])).rc, sent + [req])
  }

  /** parse_cmdline's loop: each option overwrites rc; h or an unrecognized
      option ends the process with status 0, so any such option among the
      options makes the result 0. */
  function Dispatch(k: Codes, d: Daemon, r: Run, opts: seq<CmdOpt>): (res: Run)
    requires k.Valid()
    ensures (exists i :: 0 <= i < |opts| && Exits(opts[i])) ==> res.rc == 0
    decreases |opts|
  {
    if opts == [] then r
    else if Exits(opts[0]) then Run(0, r.sent)
    else Dispatch(k, d, Step(k, d, r.sent, opts[0]), opts[1..])
  }

  /** Without options the loop body never runs and rc keeps its initial -1. */
  lemma NoOptionsNoCommand(k: Codes, d: Daemon, sent: seq<Request>)
    requires k.Valid()
    ensures Dispatch(k, d, Run(-1, sent), []) == Run(-1, sent)
  {
  }

  /** r (reset) and f (point-to-flash) do the same thing. */
  lemma ResetAliasesPointToFlash(k: Codes, d: Daemon, sent: seq<Request>)
    requires k.Valid()
    ensures Step(k, d, sent, Reset) == Step(k, d, sent, PointToFlash)
    ensures Step(k, d, sent, Reset) ==
              Run(Outcome(k, ResetCmd, d(sent + [Request(k.cReset, [])])).rc, sent + [Request(k.cReset, [])])
  {
  }

  /** v sets rc to 0 without contacting the daemon. */
  lemma VersionYieldsZero(k: Codes, d: Daemon, sent: seq<Request>)
    requires k.Valid()
    ensures Step(k, d, sent, Version) == Run(0, sent)
  {
  }

  /** e fails locally with -E_DBUS_INVAL whatever its argument, sending nothing. */
  lemma ResumeFailsLocally(k: Codes, d: Daemon, sent: seq<Request>, arg: Option<string>)
    requires k.Valid()
    ensures Step(k, d, sent, Resume(arg)) == Run(-(k.eInval as int), sent)
  {
    ResumeGuardAlwaysHolds(arg);
  }

  /** Appending an option that does not exit: the final rc is that option's. */
  lemma {:induction false} LastOptionWins(k: Codes, d: Daemon, r: Run, opts: seq<CmdOpt>, o: CmdOpt)
    requires k.Valid() && !Exits(o)
    requires forall i :: 0 <= i < |opts| ==> !Exits(opts[i])
    ensures Dispatch(k, d, r, opts + [o]) == Step(k, d, Dispatch(k, d, r, opts).sent, o)
    decreases |opts|
  {
    if opts == [] {
      assert [o][1..] == [];
    } else {
      assert (opts + [o])[1..] == opts[1..] + [o];
      LastOptionWins(k, d, Step(k, d, r.sent, opts[0]), opts[1..], o);
    }
  }

  /** The first h or unrecognized option ends the run with 0; options after
      it are never processed. */
  lemma {:induction false} ExitOptionStops(k: Codes, d: Daemon, r: Run, opts: seq<CmdOpt>, j: nat)
    requires k.Valid()
    requires j < |opts| && Exits(opts[j])
    requires forall i :: 0 <= i < j ==> !Exits(opts[i])
    ensures Dispatch(k, d, r, opts) == Run(0, Dispatch(k, d, r, opts[..j]).sent)
    decreases j
  {
    if j > 0 {
      assert opts[..j][1..] == opts[1..][..j - 1];
      ExitOptionStops(k, d, Step(k, d, r.sent, opts[0]), opts[1..], j - 1);
    }
  }

  /** A run sends at most one request per option. */
  lemma {:induction false} OneRequestPerOption(k: Codes, d: Daemon, r: Run, opts: seq<CmdOpt>)
    requires k.Valid()
    ensures var s := Dispatch(k, d, r, opts).sent;
              |r.sent| <= |s| <= |r.sent| + |opts| && s[..|r.sent|] == r.sent
    decreases |opts|
  {
    if opts != [] && !Exits(opts[0]) {
      var r' := Step(k, d, r.sent, opts[0]);
      OneRequestPerOption(k, d, r', opts[1..]);
      var s := Dispatch(k, d, r, opts).sent;
      assert s[..|r.sent|] == s[..|r'.sent|][..|r.sent|];
    }
  }

  // ---------------------------------------------------------------------
  // The client as the C code runs it
  // ---------------------------------------------------------------------

  /** struct mboxctl_context: the bus connection, here the daemon behind it
      and the method calls attempted on it so far. A call is recorded whether
      or not it reached the daemon: one whose message the bus library could
      not build or send shows up as a CallFailed reply to that request. */
  class Context {
    const daemon: Daemon
    var sent: seq<Request>

    /** A connection on which nothing has been attempted yet. */
    constructor (daemon: Daemon)
      ensures this.daemon == daemon && sent == []
    {
      this.daemon := daemon;
      sent := [];
    }

    /** One synchronous method call on the bus, recorded as attempted. */
    method Call(req: Request) returns (reply: BusReply)
      modifies this
      ensures sent == old(sent) + [req]
      ensures reply == daemon(sent)
    {
      sent := sent + [req];
      reply := daemon(sent);
    }

    /** send_dbus_msg: sends msg and fills resp. resp->cmd is written once the
        status byte is read; resp->args gets the first num_args reply bytes,
        only when the reply has at least that many. */
    method SendDbusMsg(k: Codes, msg: DbusMsg, resp: DbusMsg) returns (rc: int)
      requires k.Valid() && msg.Valid() && resp.Valid()
      modifies this, resp, resp.args
      ensures sent == old(sent) + [Request(old(msg.cmd), old(msg.args[..]))]
      ensures rc == SendRc(k, resp.numArgs, daemon(sent))
      ensures resp.Valid() && resp.numArgs == old(resp.numArgs) && resp.args == old(resp.args)
      ensures resp.cmd == if daemon(sent).CallFailed? then old(resp.cmd) else daemon(sent).status
      ensures resp.args[..] == if rc == 0 then daemon(sent).args[..resp.numArgs] else old(resp.args[..])
    {
      var reply := Call(Request(msg.cmd, msg.args[..]));
      match reply {
        case CallFailed(e) =>
          rc := -(e as int);
        case ArgsUnreadable(status, e) =>
          resp.cmd := status;
          rc := -(e as int);
        case Reply(status, args) =>
          resp.cmd := status;
          if |args| < resp.numArgs {
            rc := -(k.eInternal as int);
          } else {
            Memcpy(resp.args, 0, args[..resp.numArgs]);
            rc := 0;
          }
      }
    }

    /** The part shared by the handlers that send a request without arguments
        and print their label with the status text. */
    method SimpleCommand(k: Codes, c: Command, cmd: byte) returns (rc: int, line: Option<string>)
      requires k.Valid() && !c.ResumeCmd? && !c.StatusCmd?
      requires RequestOf(k, c) == Some(Request(cmd, []))
      modifies this
      ensures sent == old(sent) + [Request(cmd, [])]
      ensures HandlerResult(rc, line) == Outcome(k, c, daemon(sent))
    {
      var msg := new DbusMsg();
      var resp := new DbusMsg();
      msg.cmd := cmd;
      assert msg.args[..] == [];
      rc := SendDbusMsg(k, msg, resp);
      if rc < 0 {
        line := None;
        return;
      }
      rc := -(resp.cmd as int);
      line := Some(Label(c) + ": " + ParseError(k, resp.cmd as int));
    }

    /** handle_cmd_ping */
    method HandlePing(k: Codes) returns (rc: int, line: Option<string>)
      requires k.Valid()
      modifies this
      ensures sent == old(sent) + [Request(k.cPing, [])]
      ensures HandlerResult(rc, line) == Outcome(k, PingCmd, daemon(sent))
    {
      rc, line := SimpleCommand(k, PingCmd, k.cPing);
    }

    /** handle_cmd_status: expects one reply argument, the daemon's state. */
    method HandleStatus(k: Codes) returns (rc: int, line: Option<string>)
      requires k.Valid()
      modifies this
      ensures sent == old(sent) + [Request(k.cStatus, [])]
      ensures HandlerResult(rc, line) == Outcome(k, StatusCmd, daemon(sent))
    {
      var msg := new DbusMsg();
      var resp := new DbusMsg();
      msg.cmd := k.cStatus;
      resp.numArgs := 1;
      resp.args := new byte[1];
      assert msg.args[..] == [];
      rc := SendDbusMsg(k, msg, resp);
      if rc < 0 {
        line := None;
        return;
      }
      rc := -(resp.cmd as int);
      if resp.cmd != k.success {
        line := None;
        return;
      }
      line := if resp.args[0] == k.statusActive then Some("Daemon Status: Active")
              else Some("Daemon Status: Suspended");
    }

    /** handle_cmd_reset */
    method HandleReset(k: Codes) returns (rc: int, line: Option<string>)
      requires k.Valid()
      modifies this
      ensures sent == old(sent) + [Request(k.cReset, [])]
      ensures HandlerResult(rc, line) == Outcome(k, ResetCmd, daemon(sent))
    {
      rc, line := SimpleCommand(k, ResetCmd, k.cReset);
    }

    /** handle_cmd_suspend */
    method HandleSuspend(k: Codes) returns (rc: int, line: Option<string>)
      requires k.Valid()
      modifies this
      ensures sent == old(sent) + [Request(k.cSuspend, [])]
      ensures HandlerResult(rc, line) == Outcome(k, SuspendCmd, daemon(sent))
    {
      rc, line := SimpleCommand(k, SuspendCmd, k.cSuspend);
    }

    /** handle_cmd_modified */
    method HandleModified(k: Codes) returns (rc: int, line: Option<string>)
      requires k.Valid()
      modifies this
      ensures sent == old(sent) + [Request(k.cModified, [])]
      ensures HandlerResult(rc, line) == Outcome(k, ModifiedCmd, daemon(sent))
    {
      rc, line := SimpleCommand(k, ModifiedCmd, k.cModified);
    }

    /** parse_cmdline: runs the handler of each option in turn; the last
        rc wins, and h or an unrecognized option exits with status 0. */
    method ParseCmdline(k: Codes, opts: seq<CmdOpt>) returns (rc: int)
      requires k.Valid()
      modifies this
      ensures Run(rc, sent) == Dispatch(k, daemon, Run(-1, old(sent)), opts)
    {
      rc := -1;
      var i := 0;
      while i < |opts|
        invariant 0 <= i <= |opts|
        invariant Dispatch(k, daemon, Run(-1, old(sent)), opts) == Dispatch(k, daemon, Run(rc, sent), opts[i..])
      {
        assert opts[i..][1..] == opts[i + 1..];
        var line: Option<string>;
        match opts[i] {
          case Ping => rc, line := HandlePing(k);
          case Status => rc, line := HandleStatus(k);
          case Reset => rc, line := HandleReset(k);
          case PointToFlash => rc, line := HandleReset(k);
          case Suspend => rc, line := HandleSuspend(k);
          case Resume(arg) => rc, line := HandleResume(k, arg);
          case FlashModified => rc, line := HandleModified(k);
          case Version => rc := 0;
          case Help => rc := 0; return;
          case Unrecognized => rc := 0; return;
        }
        i := i + 1;
      }
    }
  }

  /** handle_cmd_resume: its guard holds for every argument, so it returns
      -E_DBUS_INVAL before building a request and never uses the bus. */
  method HandleResume(k: Codes, arg: Option<string>) returns (rc: int, line: Option<string>)
    ensures rc == -(k.eInval as int) && line == None
  {
    ResumeGuardAlwaysHolds(arg);
    rc := -(k.eInval as int);
    line := None;
  }

  /** main: connects to the bus (connectRc is what the connection attempt
      returned) and, if that succeeded, runs the options on it. */
  method RunMain(k: Codes, daemon: Daemon, connectRc: int, opts: seq<CmdOpt>) returns (rc: int)
    requires k.Valid()
    ensures connectRc < 0 ==> rc == connectRc
    ensures connectRc >= 0 ==> rc == Dispatch(k, daemon, Run(-1, []), opts).rc
  {
    rc := connectRc;
    if rc < 0 {
      return;
    }
    var context := new Context(daemon);
    rc := context.ParseCmdline(k, opts);
  }
}
