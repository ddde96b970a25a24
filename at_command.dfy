/** The AT command dispatcher: a received line is checked for the "AT"
    prefix and the CR LF ending, matched against the command table, and
    routed to the run, get or set handler of the first entry whose name
    begins the rest of the line. */
module AtCommand {
  import HalMcu

  // ---------------------------------------------------------------------
  // Status codes and their descriptions
  // ---------------------------------------------------------------------

  /** `ATEerror_t`: the codes index the description table. */
  const Ok: nat := 0
  const Error: nat := 1
  const ParamError: nat := 2
  const SaveFailed: nat := 10
  const AtMax: nat := 13

  /** `ATError_description`: one text per code below `AT_MAX`, then the
      text for every other code. */
  const Descriptions: seq<string> := [
    "\r\nOK\r\n", "\r\nAT_ERROR\r\n", "\r\nAT_PARAM_ERROR\r\n", "\r\nAT_BUSY_ERROR\r\n",
    "\r\nAT_TEST_PARAM_OVERFLOW\r\n", "\r\nAT_NO_NETWORK_JOINED\r\n", "\r\nAT_RX_ERROR\r\n",
    "\r\nAT_NO_CLASS_B_ENABLE\r\n", "\r\nAT_DUTYCYCLE_RESTRICTED\r\n", "\r\nAT_CRYPTO_ERROR\r\n",
    "\r\nAT_SAVE_FAILED\r\n", "\r\nAT_READ_FAILED\r\n", "\r\nAT_DELETE_ERROR\r\n",
    "\r\nerror unknown\r\n"]

  /** The reply printed for a status: codes at or above `AT_MAX` all
      print the "error unknown" entry. */
  function Description(status: nat): (d: string)
    ensures status < AtMax ==> d == Descriptions[status]
    ensures status >= AtMax ==> d == "\r\nerror unknown\r\n"
  {
    if status < AtMax then Descriptions[status] else Descriptions[AtMax]
  }

  // ---------------------------------------------------------------------
  // The dispatch rule
  // ---------------------------------------------------------------------

  /** A C string: no NUL before its end. */
  predicate CString(s: string)
  {
    forall i :: 0 <= i < |s| ==> s[i] != '\0'
  }

  /** The command table, reduced to the names that select an entry
      (`ATCommand[i].string`); every name is a non-empty C string that
      does not start with the `?` of the general help. */
  predicate TableOk(table: seq<string>)
  {
    forall i :: 0 <= i < |table| ==> |table[i]| > 0 && CString(table[i]) && table[i][0] != '?'
  }

  /** `strncmp(rest, name, strlen(name)) == 0`. */
  predicate Begins(name: string, rest: string)
  {
    |name| <= |rest| && rest[..|name|] == name
  }

  /** What a line leads to: a reply without any handler, the general
      help, or one of the handlers of entry `entry`, with the text after
      the `=` for get and set. */
  datatype Call =
    | Reply(status: nat)
    | HelpAll
    | Run(entry: nat)
    | Get(entry: nat, arg: string)
    | Set(entry: nat, arg: string)
    | Help(entry: nat)

  /** The first entry from `from` on whose name begins `rest`. */
  function FirstMatch(table: seq<string>, rest: string, from: nat): (r: Option<nat>)
    requires from <= |table|
    ensures r.Some? ==> from <= r.value < |table| && Begins(table[r.value], rest)
                        && forall j :: from <= j < r.value ==> !Begins(table[j], rest)
    ensures r.None? ==> forall j :: from <= j < |table| ==> !Begins(table[j], rest)
    decreases |table| - from
  {
    if from == |table| then None
    else if Begins(table[from], rest) then Some(from)
    else FirstMatch(table, rest, from + 1)
  }

  datatype Option<T> = None | Some(value: T)

  /** What follows the name of the selected entry decides the handler. */
  function After(entry: nat, tail: string): (c: Call)
  {
    var c0 := HalMcu.CharAt(tail, 0);
    if c0 == '\r' then
      if HalMcu.CharAt(tail, 1) == '\n' then Run(entry) else Reply(Error)
    else if c0 == '=' then
      if HalMcu.CharAt(tail, 1) == '?' && HalMcu.CharAt(tail, 2) == '\r' && HalMcu.CharAt(tail, 3) == '\n'
      then Get(entry, tail[1..])
      else Set(entry, tail[1..])
    else if c0 == '?' then Help(entry)
    else Reply(Error)
  }

  /** The routing of `parse_cmd` for the line `cmd` (its length argument
      is the length of the line). */
  function Dispatch(cmd: string, table: seq<string>): Call
  {
    if HalMcu.CharAt(cmd, 0) != 'A' || HalMcu.CharAt(cmd, 1) != 'T' then Reply(Error)
    else if HalMcu.CharAt(cmd, 2) == '\0' then Reply(Ok)
    else if cmd[2] == '?' then HelpAll
    else if cmd[|cmd| - 1] != '\n' || cmd[|cmd| - 2] != '\r' then Reply(ParamError)
    else
      match FirstMatch(table, cmd[2..], 0)
      case None => Reply(Error)
      case Some(i) => After(i, cmd[2 + |table[i]|..])
  }

  /** The status of the whole call, given what the handler returns and
      whether saving the configuration succeeds: a successful set whose
      save fails reports `AT_SAVE_FAILED`. */
  function Final(call: Call, handler: nat, saved: bool): nat
  {
    match call
    case Reply(s) => s
    case HelpAll => Ok
    case Help(_) => Ok
    case Run(_) => handler
    case Get(_, _) => handler
    case Set(_, _) => if handler == Ok && !saved then SaveFailed else handler
  }

  // ---------------------------------------------------------------------
  // parse_cmd
  // ---------------------------------------------------------------------

  /** `parse_cmd(cmd, length)`: `handler` is the status the called
      handler returns and `saved` the outcome of `save_Config`; the
      result is the routing, the final status and the reply printed. */
  method ParseCmd(cmd: string, table: seq<string>, handler: nat, saved: bool)
    returns (call: Call, status: nat, reply: string)
    requires CString(cmd) && TableOk(table)
    ensures call == Dispatch(cmd, table)
    ensures status == Final(call, handler, saved) && reply == Description(status)
  {
    status := Ok;
    call := Reply(Ok);
    if HalMcu.CharAt(cmd, 0) != 'A' || HalMcu.CharAt(cmd, 1) != 'T' {
      status := Error;
      call := Reply(Error);
    } else if HalMcu.CharAt(cmd, 2) == '\0' {
      // "AT" alone: OK
    } else if cmd[2] == '?' {
      call := HelpAll;
    } else if cmd[|cmd| - 1] != '\n' || cmd[|cmd| - 2] != '\r' {
      status := ParamError;
      call := Reply(ParamError);
    } else {
      status := Error;
      call := Reply(Error);
      var rest := cmd[2..];
      var i := 0;
      var found := false;
      while i < |table| && !found
        invariant 0 <= i <= |table|
        invariant !found ==> FirstMatch(table, rest, i) == FirstMatch(table, rest, 0)
        invariant !found ==> call == Reply(Error) && status == Error
        invariant found ==> i < |table| && Begins(table[i], rest)
        invariant found ==> call == After(i, rest[|table[i]|..]) && FirstMatch(table, rest, 0) == Some(i)
        invariant found ==> status == Final(call, handler, saved)
        decreases |table| - i, !found
      {
        var name := table[i];
        if |name| <= |rest| && rest[..|name|] == name {
          found := true;
          call, status := Route(i, rest[|name|..], handler, saved);
        } else {
          i := i + 1;
        }
      }
      if found {
        assert rest[|table[i]|..] == cmd[2 + |table[i]|..];
      }
    }
    reply := Description(status);
  }

  /** The `switch` on the character after the name. */
  method Route(entry: nat, tail: string, handler: nat, saved: bool) returns (call: Call, status: nat)
    ensures call == After(entry, tail) && status == Final(call, handler, saved)
  {
    var c0 := HalMcu.CharAt(tail, 0);
    call := Reply(Error);
    status := Error;
    if c0 == '\r' {
      if HalMcu.CharAt(tail, 1) == '\n' {
        call := Run(entry);
        status := handler;
      }
    } else if c0 == '=' {
      if HalMcu.CharAt(tail, 1) == '?' && HalMcu.CharAt(tail, 2) == '\r' && HalMcu.CharAt(tail, 3) == '\n' {
        call := Get(entry, tail[1..]);
        status := handler;
      } else {
        call := Set(entry, tail[1..]);
        status := handler;
        if status == Ok && !saved {
          status := SaveFailed;
        }
      }
    } else if c0 == '?' {
      call := Help(entry);
      status := Ok;
    }
  }

  // ---------------------------------------------------------------------
  // Properties of the dispatch rule
  // ---------------------------------------------------------------------

  /** A line that does not start with "AT" is an error and calls nothing. */
  lemma NotAtIsError(cmd: string, table: seq<string>)
    requires !(|cmd| >= 2 && cmd[..2] == "AT")
    ensures Dispatch(cmd, table) == Reply(Error)
  {
    assert |cmd| >= 2 ==> cmd[..2] == [cmd[0], cmd[1]];
  }

  /** Any line starting "AT?" prints the general help and answers OK. */
  lemma HelpIsOk(cmd: string, table: seq<string>, handler: nat, saved: bool)
    requires |cmd| >= 3 && cmd[..3] == "AT?"
    ensures Dispatch(cmd, table) == HelpAll && Final(HelpAll, handler, saved) == Ok
  {
    assert cmd[0] == 'A' && cmd[1] == 'T' && cmd[2] == '?';
  }

  /** Past "AT", a line that does not end in CR LF is a parameter error
      whatever its command. */
  lemma MissingCrLfIsParamError(cmd: string, table: seq<string>)
    requires |cmd| >= 3 && cmd[..2] == "AT" && cmd[2] != '?' && cmd[2] != '\0'
    requires cmd[|cmd| - 2..] != "\r\n"
    ensures Dispatch(cmd, table) == Reply(ParamError)
  {
    assert cmd[0] == 'A' && cmd[1] == 'T';
    assert cmd[|cmd| - 2..] == [cmd[|cmd| - 2], cmd[|cmd| - 1]];
  }

  /** A handler is reached only for the first entry whose name begins
      the line after "AT"; with no such entry the line is an error. */
  lemma FirstEntryWins(cmd: string, table: seq<string>)
    requires |cmd| >= 3 && cmd[..2] == "AT" && cmd[2] != '?' && cmd[2] != '\0'
    requires cmd[|cmd| - 2..] == "\r\n"
    ensures match Dispatch(cmd, table)
            case Reply(s) => s == Error
            case HelpAll => false
            case Run(i) => i < |table| && Begins(table[i], cmd[2..])
                           && forall j :: 0 <= j < i ==> !Begins(table[j], cmd[2..])
            case Get(i, _) => i < |table| && Begins(table[i], cmd[2..])
                              && forall j :: 0 <= j < i ==> !Begins(table[j], cmd[2..])
            case Set(i, _) => i < |table| && Begins(table[i], cmd[2..])
                              && forall j :: 0 <= j < i ==> !Begins(table[j], cmd[2..])
            case Help(i) => i < |table| && Begins(table[i], cmd[2..])
                            && forall j :: 0 <= j < i ==> !Begins(table[j], cmd[2..])
  {
    assert cmd[0] == 'A' && cmd[1] == 'T';
    assert cmd[|cmd| - 1] == '\n' && cmd[|cmd| - 2] == '\r' by {
      assert cmd[|cmd| - 2..][0] == cmd[|cmd| - 2] && cmd[|cmd| - 2..][1] == cmd[|cmd| - 1];
    }
  }

  /** `AT_SAVE_FAILED` comes only from a set that succeeded and could not
      be saved, unless the handler itself returned it. */
  lemma SaveFailedOnlyAfterSet(cmd: string, table: seq<string>, handler: nat, saved: bool)
    requires Final(Dispatch(cmd, table), handler, saved) == SaveFailed && handler != SaveFailed
    ensures Dispatch(cmd, table).Set? && handler == Ok && !saved
  {
    match FirstMatch(table, cmd[2..], 0)
    case None =>
    case Some(i) =>
  }

  // ---------------------------------------------------------------------
  // Well-formed command lines
  // ---------------------------------------------------------------------

  function RunLine(name: string): string { "AT" + name + "\r\n" }
  function GetLine(name: string): string { "AT" + name + "=?\r\n" }
  function SetLine(name: string, value: string): string { "AT" + name + "=" + value + "\r\n" }

  /** No entry before `i` has a name that begins `line`. */
  predicate Unshadowed(table: seq<string>, i: nat, line: string)
    requires i < |table|
  {
    forall j :: 0 <= j < i ==> !Begins(table[j], line)
  }

  lemma LineStart(line: string, name: string, tail: string)
    requires |name| > 0 && line == "AT" + name + tail
    ensures line[..2] == "AT" && line[2] == name[0] && line[2..] == name + tail
    ensures line[2 + |name|..] == tail
  {
    assert line[2..] == name + tail;
  }

  /** "AT<name>\r\n" runs the entry of that name. */
  lemma RunLineRuns(table: seq<string>, i: nat)
    requires TableOk(table) && i < |table| && Unshadowed(table, i, table[i] + "\r\n")
    ensures Dispatch(RunLine(table[i]), table) == Run(i)
  {
    var line := RunLine(table[i]);
    LineStart(line, table[i], "\r\n");
    LineRoutes(table, i, line, "\r\n");
  }

  /** "AT<name>=?\r\n" gets the value of the entry of that name. */
  lemma GetLineGets(table: seq<string>, i: nat)
    requires TableOk(table) && i < |table| && Unshadowed(table, i, table[i] + "=?\r\n")
    ensures Dispatch(GetLine(table[i]), table) == Get(i, "?\r\n")
  {
    var line := GetLine(table[i]);
    LineStart(line, table[i], "=?\r\n");
    LineRoutes(table, i, line, "=?\r\n");
  }

  /** "AT<name>=<value>\r\n" hands "<value>\r\n" to the set handler of
      the entry of that name, unless that argument starts "?\r\n". */
  lemma SetLineSets(table: seq<string>, i: nat, value: string)
    requires TableOk(table) && i < |table| && Unshadowed(table, i, table[i] + "=" + value + "\r\n")
    requires |value| == 0 || (value + "\r\n")[..3] != "?\r\n"
    ensures Dispatch(SetLine(table[i], value), table) == Set(i, value + "\r\n")
  {
    var arg := value + "\r\n";
    var tail := "=" + arg;
    var line := SetLine(table[i], value);
    assert line == "AT" + table[i] + tail;
    assert tail[|tail| - 2..] == "\r\n";
    LineStart(line, table[i], tail);
    LineRoutes(table, i, line, tail);
    AfterSet(i, arg);
  }

  /** After the name, "=" and an argument other than "?\r\n..." is a set. */
  lemma AfterSet(i: nat, arg: string)
    requires |arg| >= 2 && arg[|arg| - 2..] == "\r\n"
    requires |arg| == 2 || arg[..3] != "?\r\n"
    ensures After(i, "=" + arg) == Set(i, arg)
  {
    var tail := "=" + arg;
    assert tail[0] == '=' && tail[1..] == arg;
    if |arg| == 2 {
      assert arg[0] == '\r';
      assert HalMcu.CharAt(tail, 1) == '\r';
    } else {
      assert HalMcu.CharAt(tail, 1) == arg[0] && HalMcu.CharAt(tail, 2) == arg[1] && HalMcu.CharAt(tail, 3) == arg[2];
      assert arg[..3] == [arg[0], arg[1], arg[2]];
    }
  }

  /** A line "AT" + name + tail ending in CR LF selects entry `i`. */
  lemma LineRoutes(table: seq<string>, i: nat, line: string, tail: string)
    requires TableOk(table) && i < |table| && |tail| >= 2 && tail[|tail| - 2..] == "\r\n"
    requires line == "AT" + table[i] + tail && tail[0] != '\0'
    requires line[..2] == "AT" && line[2..] == table[i] + tail && line[2 + |table[i]|..] == tail
    requires Unshadowed(table, i, table[i] + tail)
    ensures Dispatch(line, table) == After(i, tail)
  {
    var rest := line[2..];
    assert line[0] == 'A' && line[1] == 'T';
    assert line[2] == table[i][0];
    assert line[|line| - 1] == tail[|tail| - 1] && line[|line| - 2] == tail[|tail| - 2];
    assert tail[|tail| - 2..][0] == tail[|tail| - 2] && tail[|tail| - 2..][1] == tail[|tail| - 1];
    assert rest[..|table[i]|] == table[i];
    assert Begins(table[i], rest);
    assert rest == table[i] + tail;
  }
}
