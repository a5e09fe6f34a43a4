/**
 Firewall port management (`firewall_manage`): read an action and a port,
 accept only allow/deny/delete and an all-digit port, and run
 `ufw <action> <port>/tcp`.
 */
module Firewall {
  import opened Text
  import opened Host

  const RuleActions: set<string> := {"allow", "deny", "delete"}

  /** The ufw command for a lower-cased action and a stripped port, or
      None when either is rejected. */
  function UfwCommand(action: string, port: string): (r: Option<string>)
    ensures r.Some? <==> action in RuleActions && IsDigits(port)
  {
    if action in RuleActions && IsDigits(port) then
      Some("ufw " + action + " " + port + "/tcp")
    else None
  }

  /** Index of the first space in `s`, or |s| when there is none. */
  function FirstSpace(s: string): (k: nat)
    ensures k <= |s|
    ensures k < |s| ==> s[k] == ' '
    ensures forall i :: 0 <= i < k ==> s[i] != ' '
    decreases |s|
  {
    if s == [] then 0
    else if s[0] == ' ' then 0
    else 1 + FirstSpace(s[1..])
  }

  /** Reads a ufw command back into the action and port it was built
      from; None for anything UfwCommand cannot produce. */
  function ParseUfw(cmd: string): Option<(string, string)> {
    if |cmd| < 8 || cmd[..4] != "ufw " || cmd[|cmd| - 4..] != "/tcp" then None
    else
      var body := cmd[4..|cmd| - 4];
      var k := FirstSpace(body);
      if k == |body| then None
      else
        var action, port := body[..k], body[k + 1..];
        if action in RuleActions && IsDigits(port) then Some((action, port)) else None
  }

  lemma FirstSpaceAfter(a: string, b: string)
    requires forall i :: 0 <= i < |a| ==> a[i] != ' '
    ensures FirstSpace(a + " " + b) == |a|
  {
    var s := a + " " + b;
    assert s[|a|] == ' ';
  }

  lemma NoSpaceInActions(action: string)
    requires action in RuleActions
    ensures forall i :: 0 <= i < |action| ==> action[i] != ' '
  {
  }

  /** A built command parses back to what it was built from. */
  lemma BuiltCommandParses(action: string, port: string)
    requires action in RuleActions && IsDigits(port)
    ensures ParseUfw("ufw " + action + " " + port + "/tcp") == Some((action, port))
  {
    var cmd := "ufw " + action + " " + port + "/tcp";
    NoSpaceInActions(action);
    var body := action + " " + port;
    assert cmd == "ufw " + body + "/tcp";
    assert cmd[4..|cmd| - 4] == body;
    FirstSpaceAfter(action, port);
    assert body[..|action|] == action;
    assert body[|action| + 1..] == port;
  }

  /** A command that parses is the one built from what it parses to. */
  lemma ParsedCommandBuilt(cmd: string)
    requires ParseUfw(cmd).Some?
    ensures var (action, port) := ParseUfw(cmd).value;
      action in RuleActions && IsDigits(port) && cmd == "ufw " + action + " " + port + "/tcp"
  {
    var (action, port) := ParseUfw(cmd).value;
    var body := cmd[4..|cmd| - 4];
    var k := FirstSpace(body);
    assert body[..k] == action && body[k + 1..] == port;
    assert body == action + " " + port;
    assert cmd == cmd[..4] + body + cmd[|cmd| - 4..];
  }

  /** The ufw command names exactly the accepted action and port: a
      command is built from (action, port) if and only if it parses back
      to (action, port). */
  lemma UfwCommandParses(action: string, port: string, cmd: string)
    ensures UfwCommand(action, port) == Some(cmd) <==> ParseUfw(cmd) == Some((action, port))
  {
    if UfwCommand(action, port) == Some(cmd) {
      BuiltCommandParses(action, port);
    }
    if ParseUfw(cmd) == Some((action, port)) {
      ParsedCommandBuilt(cmd);
    }
  }

  /** `firewall_manage`: both answers are read before either is checked. */
  function FirewallManage(w: World): (o: Outcome)
    ensures Follows(w, o)
    ensures |w.tty| < 2 && (w.tty == [] || w.tty[0].Line?) ==> o.status.Stalled? && o.trace == []
    ensures w.tty != [] && w.tty[0].NoTerminal? ==>
              o.status == Raised(TerminalUnavailable) && o.trace == []
    ensures |w.tty| >= 2 && w.tty[0].Line? && w.tty[1].NoTerminal? ==>
              o.status == Raised(TerminalUnavailable) && o.trace == []
    ensures |w.tty| >= 2 && w.tty[0].Line? && w.tty[1].Line? ==>
              var action := Lower(Strip(w.tty[0].text));
              var port := Strip(w.tty[1].text);
              && o.world.tty == w.tty[2..]
              // a command is issued if and only if both answers are acceptable
              && (Commands(o.trace) != [] <==> action in RuleActions && IsDigits(port))
              && (action in RuleActions && IsDigits(port) ==>
                    && o.trace[0] == Command("ufw " + action + " " + port + "/tcp")
                    && Commands(o.trace) == ["ufw " + action + " " + port + "/tcp"])
              && (!(action in RuleActions && IsDigits(port)) ==>
                    o.status.Done? && o.trace == [Say(InvalidInput)] && o.world.exits == w.exits)
  {
    match TtyInput(w)
    case Stalled => Outcome(Status.Stalled, w, [])
    case Raise(e, w2) => Outcome(Raised(e), w2, [])
    case Got(entered, w1) =>
      match TtyInput(w1)
      case Stalled => Outcome(Status.Stalled, w1, [])
      case Raise(e, w2) => Outcome(Raised(e), w2, [])
      case Got(p, w2) =>
        StripIdempotent(w.tty[1].text);
        var action := Lower(entered);
        var port := Strip(p);
        match UfwCommand(action, port)
        case None =>
          ApplySilent(w.fs, [Say(InvalidInput)]);
          Outcome(Done, w2, [Say(InvalidInput)])
        case Some(cmd) =>
          var after := [Say(FirewallUpdated(action, port))];
          assert Commands([Command(cmd)]) == [cmd];
          assert Commands([Command(cmd)] + after) == [cmd];
          assert ApplyAll(w2.fs, []) == w2.fs;
          RunThen(w2, [], cmd, after)
  }
}
