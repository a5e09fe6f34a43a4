/**
 Changing the SSH port (`change_ssh_port`): read a port, refuse anything
 that is not all digits, back up sshd_config, drop every line whose
 stripped text starts with `Port`, append one `Port N` line and restart
 the SSH service.
 */
module SshPort {
  import opened Text
  import opened Host
  import opened Seqs

  const SshdConfig: Path := "/etc/ssh/sshd_config"
  const RestartSsh: string := "systemctl restart ssh || systemctl restart sshd"

  /** A line the rewrite removes: its stripped text starts with `Port`
      (so `Port 22`, `  Port 22`, and also `PortX`, but not `#Port 22`). */
  predicate IsPortLine(line: string) {
    StartsWith(Strip(line), "Port")
  }

  /** The chunk appended for the new port. */
  function PortLine(port: string): string {
    "\nPort " + port + "\n"
  }

  /** The lines the rewrite keeps. */
  predicate KeepsLine(line: string) {
    !IsPortLine(line)
  }

  /** The lines of the configuration that are not Port lines, in order. */
  function DropPortLines(lines: seq<string>): seq<string> {
    Filter(lines, KeepsLine)
  }

  /** The new contents of sshd_config for `port`. */
  function RewriteSshd(lines: seq<string>, port: string): seq<string> {
    DropPortLines(lines) + [PortLine(port)]
  }

  /** The rewrite removes exactly the Port lines: every line it keeps is
      an input line that is not a Port line, sitting at the position its
      rank gives; every input line that is not a Port line is kept there,
      unchanged and in its original relative order; the new Port line
      comes last. */
  lemma RewriteKeepsOthersInOrder(lines: seq<string>, port: string, i: nat, j: nat)
    requires i < j <= |lines|
    requires !IsPortLine(lines[i])
    ensures var r := RewriteSshd(lines, port);
      && Rank(lines, i, KeepsLine) < Rank(lines, j, KeepsLine) < |r|
      && r[Rank(lines, i, KeepsLine)] == lines[i]
      && r[|r| - 1] == PortLine(port)
      && forall k :: 0 <= k < |r| - 1 ==> !IsPortLine(r[k])
  {
    KeptInOrder(lines, i, j, KeepsLine);
  }

  /** Conversely, each line before the appended one is some input line
      that is not a Port line. */
  lemma RewriteLinesComeFromInput(lines: seq<string>, port: string, k: nat)
    requires k < |RewriteSshd(lines, port)| - 1
    ensures exists i ::
              && 0 <= i < |lines| && !IsPortLine(lines[i])
              && RewriteSshd(lines, port)[k] == lines[i]
  {
    FilterFromInput(lines, k, KeepsLine);
  }

  /** A file without Port lines is kept whole, with the Port line after it. */
  lemma NoPortLinesKeptWhole(lines: seq<string>, port: string)
    requires forall i :: 0 <= i < |lines| ==> !IsPortLine(lines[i])
    ensures RewriteSshd(lines, port) == lines + [PortLine(port)]
  {
    FilterAllKept(lines, KeepsLine);
  }

  /** After the rewrite the file has exactly one Port line, the last one,
      and it names the entered port. */
  lemma RewriteSinglePortLine(lines: seq<string>, port: string)
    requires IsDigits(port)
    ensures var r := RewriteSshd(lines, port);
      && IsPortLine(r[|r| - 1])
      && Strip(r[|r| - 1]) == "Port " + port
      && forall i :: 0 <= i < |r| - 1 ==> !IsPortLine(r[i])
  {
    var t := "Port " + port;
    assert t[|t| - 1] == port[|port| - 1];
    assert PortLine(port) == "\n" + t + "\n";
    StripPadded("\n", t, "\n");
    assert t[..4] == "Port";
  }

  /** `change_ssh_port`. */
  function ChangeSshPort(w: World): (o: Outcome)
    ensures Follows(w, o)
    ensures w.tty == [] ==> o == Outcome(Status.Stalled, w, [])
    ensures w.tty != [] && w.tty[0].NoTerminal? ==>
              o.status == Raised(TerminalUnavailable) && o.trace == []
    // not all digits: nothing but the message, no file or command touched
    ensures w.tty != [] && w.tty[0].Line? && !IsDigits(Strip(w.tty[0].text)) ==>
              && o.status == Done
              && o.trace == [Say(PortNotNumeric)]
              && o.world.fs == w.fs && o.world.exits == w.exits
    ensures w.tty != [] && w.tty[0].Line? && IsDigits(Strip(w.tty[0].text))
              && SshdConfig !in w.fs ==>
              o.status == Raised(FileMissing(SshdConfig)) && o.trace == []
    // a valid port: backup of the old text, then the rewrite, then the restart
    ensures w.tty != [] && w.tty[0].Line? && IsDigits(Strip(w.tty[0].text))
              && SshdConfig in w.fs ==>
              var port := Strip(w.tty[0].text);
              var before := w.fs[SshdConfig];
              && |o.trace| >= 3
              && o.trace[..3] == [Backup(SshdConfig), Write(SshdConfig, RewriteSshd(before, port)),
                                  Command(RestartSsh)]
              && o.world.fs == w.fs[BackupOf(SshdConfig) := before][SshdConfig := RewriteSshd(before, port)]
              && (o.status.Done? <==> (w.exits != [] && w.exits[0]))
  {
    match TtyInput(w)
    case Stalled => Outcome(Status.Stalled, w, [])
    case Raise(e, w2) => Outcome(Raised(e), w2, [])
    case Got(entered, w1) =>
      StripIdempotent(w.tty[0].text);
      var port := Strip(entered);
      if !IsDigits(port) then
        ApplySilent(w.fs, [Say(PortNotNumeric)]);
        Outcome(Done, w1, [Say(PortNotNumeric)])
      else if SshdConfig !in w1.fs then
        Outcome(Raised(FileMissing(SshdConfig)), w1, [])
      else
        var before := w1.fs[SshdConfig];
        var pre := [Backup(SshdConfig), Write(SshdConfig, RewriteSshd(before, port))];
        ApplyAllPair(w1.fs, pre[0], pre[1]);
        RunThen(w1, pre, RestartSsh, [Say(PortChanged(port)), Say(OpenPortReminder)])
  }
}
