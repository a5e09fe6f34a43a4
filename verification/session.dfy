/**
 The top level (`check_root` and `main`): a root gate, then a loop that
 shows the menu, reads a choice, exits on "0", reports unknown choices,
 and runs the chosen handler, catching anything it raises.
 */
module Session {
  import opened Text
  import opened Host
  import opened Registry
  import SshPort
  import Firewall
  import Timezone
  import Ipv6

  /** The trace of running `cmds`, one after another. */
  function Issue(cmds: seq<string>): (trace: seq<Effect>)
    ensures |trace| == |cmds|
    decreases |cmds|
  {
    if cmds == [] then [] else [Command(cmds[0])] + Issue(cmds[1..])
  }

  /** Runs constant commands in order, stopping at the first failure. */
  function RunAll(w: World, cmds: seq<string>): (o: Outcome)
    ensures Follows(w, o) && o.world.tty == w.tty
    // the trace is the commands issued, a prefix of `cmds` ...
    ensures |o.trace| <= |cmds| && o.trace == Issue(cmds[..|o.trace|])
    // ... all of them when every one succeeded ...
    ensures o.status.Done? ==> |o.trace| == |cmds|
    // ... and up to the one that failed otherwise
    ensures o.status.Raised? ==>
              o.trace != [] && o.status.error == CommandFailed(cmds[|o.trace| - 1])
    // each issued command, the failing one included, used up its exit status
    ensures UsedUp(w.exits, |o.trace|, o.status, o.world.exits)
    decreases |cmds|
  {
    if cmds == [] then
      ApplySilent(w.fs, []);
      assert cmds[..0] == [];
      Outcome(Done, w, [])
    else
      var issued := [Command(cmds[0])];
      ApplySilent(w.fs, issued);
      assert cmds[..1][1..] == [];
      assert Issue(cmds[..1]) == issued;
      match Shell(w, cmds[0])
      case Stalled => Outcome(Status.Stalled, w, issued)
      case Raise(e, w2) => Outcome(Raised(e), w2, issued)
      case Got(_, w1) =>
        var rest := RunAll(w1, cmds[1..]);
        var o := Outcome(rest.status, rest.world, issued + rest.trace);
        FollowsTrans(w, Outcome(Done, w1, issued), rest, o);
        var n := |rest.trace|;
        assert cmds[..n + 1][1..] == cmds[1..][..n];
        assert rest.status.Raised? ==> cmds[n] == cmds[1..][n - 1];
        UsedUpOneMore(w.exits, n, rest.status, rest.world.exits);
        o
  }

  /** After `n` commands, the exit statuses left are those after the
      first `n`; a stalled run has used them all. */
  predicate UsedUp(exits: seq<bool>, n: nat, status: Status, left: seq<bool>) {
    && (!status.Stalled? ==> n <= |exits| && left == exits[n..])
    && (status.Stalled? ==> left == [])
  }

  lemma UsedUpOneMore(exits: seq<bool>, n: nat, status: Status, left: seq<bool>)
    requires exits != [] && UsedUp(exits[1..], n, status, left)
    ensures UsedUp(exits, n + 1, status, left)
  {
    if !status.Stalled? {
      assert exits[1..][n..] == exits[n + 1..];
    }
  }

  /** The commands of `Issue(cmds)` are `cmds`. */
  lemma {:induction false} IssueCommands(cmds: seq<string>)
    ensures Commands(Issue(cmds)) == cmds
    decreases |cmds|
  {
    if cmds != [] {
      IssueCommands(cmds[1..]);
      CommandsAppend([Command(cmds[0])], Issue(cmds[1..]));
      assert Commands([Command(cmds[0])]) == [cmds[0]];
    }
  }

  /** The fixed commands all run exactly when each of them exits with
      status 0. */
  lemma {:induction false} RunAllDone(w: World, cmds: seq<string>)
    ensures RunAll(w, cmds).status.Done? <==>
              |w.exits| >= |cmds| && forall i :: 0 <= i < |cmds| ==> w.exits[i]
    decreases |cmds|
  {
    if cmds != [] && w.exits != [] && w.exits[0] {
      var w1 := w.(exits := w.exits[1..]);
      RunAllDone(w1, cmds[1..]);
      if |w.exits| >= |cmds| && forall i :: 0 <= i < |cmds| ==> w.exits[i] {
        assert forall i :: 0 <= i < |cmds| - 1 ==> w1.exits[i] == w.exits[i + 1];
      }
      if RunAll(w, cmds).status.Done? {
        forall i | 0 <= i < |cmds|
          ensures w.exits[i]
        {
          if i > 0 {
            assert w.exits[i] == w1.exits[i - 1];
          }
        }
      }
    }
  }

  /** Calls the handler of an entry (`action[1]()`). */
  function Perform(h: Handler, w: World): (o: Outcome)
    ensures Follows(w, o)
  {
    match h
    case SshPortChange => SshPort.ChangeSshPort(w)
    case FirewallRule => Firewall.FirewallManage(w)
    case TimezoneChange => Timezone.ChangeTimezone(w)
    case Ipv6Tweak => Ipv6.AutoIpv6Priority(w)
    case Fixed(cmds) => RunAll(w, cmds)
  }

  datatype Phase = AwaitingRoot | Running | Exited(code: int)

  datatype Machine = Machine(phase: Phase, world: World)

  /** One transition and what it printed or did. `stalled` means the
      world ran out before the transition completed; `next` is then where
      it stopped. */
  datatype Transition = Transition(next: Machine, out: seq<Effect>, stalled: bool)

  /** What `main` prints around a handler's outcome: the title first,
      then the handler's own trace, the error when it raised, and the
      completion notice unless the handler never finished. */
  function Wrap(title: string, w: World, o: Outcome): (t: Transition)
    requires Follows(w, o)
    ensures t.next == Machine(Running, o.world)
    ensures Follows(w, Outcome(Done, t.next.world, t.out))
    ensures t.stalled <==> o.status.Stalled?
    ensures |t.out| > |o.trace| && t.out[..|o.trace| + 1] == [Say(Executing(title))] + o.trace
    ensures o.status.Stalled? ==> |t.out| == |o.trace| + 1
    ensures o.status.Done? ==> t.out[|o.trace| + 1..] == [Say(ExecDone)]
    ensures o.status.Raised? ==>
              t.out[|o.trace| + 1..] == [Say(ExecFailed(o.status.error)), Say(ExecDone)]
  {
    var intro := [Say(Executing(title))];
    var report :=
      (if o.status.Raised? then [Say(ExecFailed(o.status.error))] else []) + [Say(ExecDone)];
    ApplySilent(w.fs, intro);
    ApplySilent(o.world.fs, report);
    ApplyAllAppend(w.fs, intro, o.trace);
    ApplyAllAppend(w.fs, intro + o.trace, report);
    if o.status.Stalled? then
      Transition(Machine(Running, o.world), intro + o.trace, true)
    else
      assert (intro + o.trace + report)[..|o.trace| + 1] == intro + o.trace;
      assert (intro + o.trace + report)[|o.trace| + 1..] == report;
      Transition(Machine(Running, o.world), intro + o.trace + report, false)
  }

  /** The rest of a pass through the loop once `choice` is read: an
      unknown choice is reported, a known one runs its handler. */
  function Dispatch(reg: seq<Entry>, choice: string, w: World): (t: Transition)
    ensures t.next.phase == Running
    ensures Follows(w, Outcome(Done, t.next.world, t.out))
    ensures Lookup(reg, choice).None? ==> t == Transition(Machine(Running, w), [Say(InvalidChoice)], false)
    ensures Lookup(reg, choice).Some? ==>
              var e := Lookup(reg, choice).value;
              t == Wrap(e.title, w, Perform(e.handler, w))
  {
    match Lookup(reg, choice)
    case None =>
      ApplySilent(w.fs, [Say(InvalidChoice)]);
      Transition(Machine(Running, w), [Say(InvalidChoice)], false)
    case Some(e) =>
      Wrap(e.title, w, Perform(e.handler, w))
  }

  /** How a session may end: status 0 right after the farewell, or
      status 1 after the root check failed or the terminal became
      unreadable at the menu. */
  predicate ExitNotice(code: int, out: seq<Effect>) {
    && out != []
    && var last := out[|out| - 1];
       || (code == 0 && last == Say(Bye))
       || (code == 1 && (last == Say(NeedRoot) || last == Say(Crash(TerminalUnavailable))))
  }

  /** One pass through the body of `main`'s loop: show the menu, read a
      choice, and exit, report it unknown or dispatch it. */
  function Pass(reg: seq<Entry>, items: seq<MenuItem>, w: World): (t: Transition)
    ensures Follows(w, Outcome(Done, t.next.world, t.out))
    // every pass starts by showing the menu
    ensures t.out != [] && t.out[0] == Say(Menu(items))
    ensures w.tty == [] ==> t.stalled
    // an unreadable terminal at the menu is not caught: the run ends
    ensures w.tty != [] && w.tty[0].NoTerminal? ==>
              t == Transition(Machine(Exited(1), w.(tty := w.tty[1..])),
                              [Say(Menu(items)), Say(Crash(TerminalUnavailable))], false)
    ensures w.tty != [] && w.tty[0].Line? ==>
              var choice := Strip(w.tty[0].text);
              var w1 := w.(tty := w.tty[1..]);
              && (choice == "0" ==>
                    t == Transition(Machine(Exited(0), w1), [Say(Menu(items)), Say(Bye)], false))
              && (choice != "0" ==>
                    && t.next.phase == Running
                    && t.stalled == Dispatch(reg, choice, w1).stalled
                    && t.out == [Say(Menu(items))] + Dispatch(reg, choice, w1).out)
    // the only ways out of the loop
    ensures t.next.phase.Exited? ==> !t.stalled && ExitNotice(t.next.phase.code, t.out)
    ensures !t.next.phase.Exited? ==> t.next.phase == Running
    // a completed pass that stays in the loop consumes the choice it read
    ensures !t.stalled && !t.next.phase.Exited? ==> |t.next.world.tty| < |w.tty|
  {
    var menu := [Say(Menu(items))];
    ApplySilent(w.fs, menu);
    match TtyInput(w)
    case Stalled => Transition(Machine(Running, w), menu, true)
    case Raise(e, w1) =>
      ApplySilent(w.fs, menu + [Say(Crash(e))]);
      Transition(Machine(Exited(1), w1), menu + [Say(Crash(e))], false)
    case Got(choice, w1) =>
      if choice == "0" then
        ApplySilent(w.fs, menu + [Say(Bye)]);
        Transition(Machine(Exited(0), w1), menu + [Say(Bye)], false)
      else
        var d := Dispatch(reg, choice, w1);
        ApplyAllAppend(w.fs, menu, d.out);
        Transition(d.next, menu + d.out, d.stalled)
  }

  /** The exit notice is the last thing printed, so printing more before
      it does not change it. */
  lemma NoticeLast(code: int, before: seq<Effect>, out: seq<Effect>)
    requires ExitNotice(code, out)
    ensures ExitNotice(code, before + out)
  {
    assert (before + out)[|before + out| - 1] == out[|out| - 1];
  }

  /** One step of the top-level state machine: the root gate, then
      passes through the loop. */
  function Step(reg: seq<Entry>, m: Machine): (t: Transition)
    requires Numeric(reg)
    requires !m.phase.Exited?
    ensures Follows(m.world, Outcome(Done, t.next.world, t.out))
    ensures m.phase == AwaitingRoot && m.world.euid != 0 ==>
              t == Transition(Machine(Exited(1), m.world), [Say(NeedRoot)], false)
    ensures m.phase == AwaitingRoot && m.world.euid == 0 ==>
              t == Transition(Machine(Running, m.world), [], false)
    // the only transitions into Exited
    ensures t.next.phase.Exited? ==> !t.stalled && t.out != [] && ExitNotice(t.next.phase.code, t.out)
  {
    var w := m.world;
    if m.phase == AwaitingRoot then
      if w.euid != 0 then
        ApplySilent(w.fs, [Say(NeedRoot)]);
        Transition(Machine(Exited(1), w), [Say(NeedRoot)], false)
      else
        Transition(Machine(Running, w), [], false)
    else
      Pass(reg, ShowMenu(reg), w)
  }

  /** Where a session ends and everything it did on the way. */
  datatype Run = Run(last: Machine, trace: seq<Effect>)

  function Measure(m: Machine): nat {
    |m.world.tty| + (if m.phase == AwaitingRoot then 1 else 0)
  }

  /** Steps until the session exits or the world runs out. */
  function RunFrom(reg: seq<Entry>, m: Machine): (r: Run)
    requires Numeric(reg)
    decreases Measure(m)
  {
    if m.phase.Exited? then Run(m, [])
    else
      var t := Step(reg, m);
      if t.stalled || t.next.phase.Exited? then Run(t.next, t.out)
      else
        var rest := RunFrom(reg, t.next);
        Run(rest.last, t.out + rest.trace)
  }

  /** `main()`. */
  function Main(reg: seq<Entry>, w: World): Run
    requires Numeric(reg)
  {
    RunFrom(reg, Machine(AwaitingRoot, w))
  }

  /** Without root the tool stops with status 1 before any menu. */
  lemma NonRootStops(reg: seq<Entry>, w: World)
    requires Numeric(reg)
    requires w.euid != 0
    ensures Main(reg, w) == Run(Machine(Exited(1), w), [Say(NeedRoot)])
  {
  }

  /** A session ends only as ExitNotice allows: a handler's failure
      never ends it. */
  lemma {:induction false} ExitStatus(reg: seq<Entry>, m: Machine)
    requires Numeric(reg) && !m.phase.Exited?
    ensures var r := RunFrom(reg, m);
      r.last.phase.Exited? ==> r.trace != [] && ExitNotice(r.last.phase.code, r.trace)
    decreases Measure(m)
  {
    var t := Step(reg, m);
    if !t.stalled && !t.next.phase.Exited? {
      ExitStatus(reg, t.next);
      var rest := RunFrom(reg, t.next);
      if rest.last.phase.Exited? {
        NoticeLast(rest.last.phase.code, t.out, rest.trace);
      }
    }
  }

  /** A handler that raises does not end the loop: the pass reports the
      error and the completion notice, and the session stays in the loop
      (the next pass shows the menu again). */
  lemma FailureIsCaught(reg: seq<Entry>, m: Machine, s: string)
    requires Numeric(reg) && m.phase == Running
    requires m.world.tty != [] && m.world.tty[0] == Line(s) && Strip(s) != "0"
    requires Lookup(reg, Strip(s)).Some?
    requires Perform(Lookup(reg, Strip(s)).value.handler, m.world.(tty := m.world.tty[1..])).status.Raised?
    ensures var t := Step(reg, m);
      var o := Perform(Lookup(reg, Strip(s)).value.handler, m.world.(tty := m.world.tty[1..]));
      && !t.stalled && t.next.phase == Running
      && |t.out| >= 2 && t.out[|t.out| - 2..] == [Say(ExecFailed(o.status.error)), Say(ExecDone)]
  {
    var w1 := m.world.(tty := m.world.tty[1..]);
    var d := Dispatch(reg, Strip(s), w1);
    var t := Step(reg, m);
    assert t == Pass(reg, ShowMenu(reg), m.world);
    assert t.out == [Say(Menu(ShowMenu(reg)))] + d.out;
    assert t.out[|t.out| - 2..] == d.out[|d.out| - 2..];
  }

  /** A line that strips to something other than "0". */
  predicate NotExit(r: Read) {
    r.Line? && Strip(r.text) != "0"
  }

  /** While the terminal stays readable and the operator never enters
      "0", the session never ends, whatever the handlers do. */
  lemma {:induction false} KeepsRunning(reg: seq<Entry>, m: Machine)
    requires Numeric(reg) && m.phase == Running
    requires forall i :: 0 <= i < |m.world.tty| ==> NotExit(m.world.tty[i])
    ensures RunFrom(reg, m).last.phase == Running
    decreases Measure(m)
  {
    var t := Step(reg, m);
    assert t == Pass(reg, ShowMenu(reg), m.world);
    if m.world.tty != [] {
      assert NotExit(m.world.tty[0]);
      assert t.next.phase == Running;
      if !t.stalled {
        StillNotExit(m.world.tty, t.next.world.tty);
        KeepsRunning(reg, t.next);
      }
    }
  }

  lemma StillNotExit(tty: seq<Read>, rest: seq<Read>)
    requires SuffixOf(rest, tty)
    requires forall i :: 0 <= i < |tty| ==> NotExit(tty[i])
    ensures forall i :: 0 <= i < |rest| ==> NotExit(rest[i])
  {
    forall i | 0 <= i < |rest|
      ensures NotExit(rest[i])
    {
      assert rest[i] == tty[|tty| - |rest| + i];
    }
  }

  /** The trace is a faithful log: applying its file effects to the
      starting files gives the files the session leaves behind. */
  lemma {:induction false} TraceAccountsForFiles(reg: seq<Entry>, m: Machine)
    requires Numeric(reg)
    ensures var r := RunFrom(reg, m);
      ApplyAll(m.world.fs, r.trace) == r.last.world.fs && r.last.world.euid == m.world.euid
    decreases Measure(m)
  {
    if !m.phase.Exited? {
      var t := Step(reg, m);
      if !t.stalled && !t.next.phase.Exited? {
        TraceAccountsForFiles(reg, t.next);
        ApplyAllAppend(m.world.fs, t.out, RunFrom(reg, t.next).trace);
      }
    }
  }

  /** The session's shell commands are exactly those of its handlers: an
      unknown choice runs nothing, and neither do the menu or exit. */
  lemma UnknownChoiceRunsNothing(reg: seq<Entry>, m: Machine, s: string)
    requires Numeric(reg) && m.phase == Running
    requires m.world.tty != [] && m.world.tty[0] == Line(s)
    requires Strip(s) != "0" && Lookup(reg, Strip(s)).None?
    ensures var t := Step(reg, m);
      && t.out == [Say(Menu(ShowMenu(reg))), Say(InvalidChoice)]
      && Commands(t.out) == []
      && t.next == Machine(Running, m.world.(tty := m.world.tty[1..]))
  {
    var t := Step(reg, m);
    assert t.out == [Say(Menu(ShowMenu(reg))), Say(InvalidChoice)];
    assert Commands(t.out) == Commands(t.out[1..]) == Commands(t.out[2..]) == [];
  }

  /** Lookup finds exactly the registry's keys. */
  lemma LookupFindsKeys(reg: seq<Entry>, key: string)
    ensures Lookup(reg, key).Some? <==> key in KeysOf(reg)
  {
    if key in KeysOf(reg) {
      var i :| 0 <= i < |reg| && KeysOf(reg)[i] == key;
      assert reg[i].key == key;
    }
    if Lookup(reg, key).Some? {
      var i :| 0 <= i < |reg| && reg[i].key == key;
      assert KeysOf(reg)[i] == key;
    }
  }

  /** Only the keys 1 to 12 name an action; in particular 0 and 13 do not. */
  lemma ActionKeys(key: string)
    ensures Lookup(Actions, key).Some? <==>
              key in ["1", "2", "3", "4", "5", "6", "7", "8", "9", "10", "11", "12"]
  {
    ActionsKeys();
    LookupFindsKeys(Actions, key);
  }

  /** Choosing 13 from the tool's own menu prints "invalid", runs
      nothing, and the next pass shows the menu again. */
  lemma ThirteenIsInvalid(m: Machine, s: string)
    requires m.phase == Running && m.world.tty != [] && m.world.tty[0] == Line(s)
    requires Strip(s) == "13"
    ensures Numeric(Actions)
    ensures var t := Step(Actions, m);
      && t.out == [Say(Menu(ShowMenu(Actions))), Say(InvalidChoice)]
      && Commands(t.out) == []
      && t.next == Machine(Running, m.world.(tty := m.world.tty[1..]))
  {
    ActionsNumeric();
    ThirteenUnknown();
    UnknownChoiceRunsNothing(Actions, m, s);
  }

  /** An action that runs one constant command. */
  predicate OneCommand(reg: seq<Entry>, key: string) {
    var e := Lookup(reg, key);
    e.Some? && e.value.handler.Fixed? && |e.value.handler.cmds| == 1
  }

  /** Choosing a one-command action runs that command and uses up one
      exit status, reporting the failure when there is one. */
  lemma FixedDispatch(reg: seq<Entry>, key: string, w: World)
    requires OneCommand(reg, key) && w.exits != []
    ensures var e := Lookup(reg, key).value;
      var cmd := e.handler.cmds[0];
      var t := Dispatch(reg, key, w);
      && t.next == Machine(Running, w.(exits := w.exits[1..]))
      && t.out == [Say(Executing(e.title)), Command(cmd)]
                  + (if w.exits[0] then [] else [Say(ExecFailed(CommandFailed(cmd)))])
                  + [Say(ExecDone)]
  {
    var e := Lookup(reg, key).value;
    var o := RunAll(w, e.handler.cmds);
    assert e.handler.cmds[1..] == [];
    RunAllDone(w, e.handler.cmds);
    assert o.trace == [Command(e.handler.cmds[0])];
    assert o.status == if w.exits[0] then Done else Raised(CommandFailed(e.handler.cmds[0]));
  }

  /** A failed command uses up only its own exit status: when one action's
      command fails and the next command exits 0, the action chosen after
      it succeeds. */
  lemma FailureThenSuccess(reg: seq<Entry>, k1: string, k2: string, w: World)
    requires OneCommand(reg, k1) && OneCommand(reg, k2)
    requires |w.exits| >= 2 && !w.exits[0] && w.exits[1]
    ensures var e1 := Lookup(reg, k1).value;
      var e2 := Lookup(reg, k2).value;
      var t1 := Dispatch(reg, k1, w);
      var t2 := Dispatch(reg, k2, t1.next.world);
      && t1.out == [Say(Executing(e1.title)), Command(e1.handler.cmds[0]),
                    Say(ExecFailed(CommandFailed(e1.handler.cmds[0]))), Say(ExecDone)]
      && t2.out == [Say(Executing(e2.title)), Command(e2.handler.cmds[0]), Say(ExecDone)]
      && t2.next.world.exits == w.exits[2..]
  {
    FixedDispatch(reg, k1, w);
    var w1 := w.(exits := w.exits[1..]);
    FixedDispatch(reg, k2, w1);
    assert w1.exits[1..] == w.exits[2..];
  }

  /** The update (2) and the password change (12) each run one command. */
  lemma UpdateAndPasswd()
    ensures OneCommand(Actions, "2") && OneCommand(Actions, "12")
    ensures Lookup(Actions, "12").value.handler.cmds == ["passwd"]
  {
    LookupFirst(Actions, 1);
    PasswdFound();
  }

  lemma PasswdFound()
    ensures Lookup(Actions, "12") == Some(Actions[11])
  {
    forall j | 0 <= j < 11
      ensures Actions[j].key != Actions[11].key
    {
      assert |Actions[j].key| == 1 || Actions[j].key[1] != '2';
    }
    LookupFirst(Actions, 11);
  }

  /** Lookup returns the first entry with the key. */
  lemma {:induction false} LookupFirst(reg: seq<Entry>, i: nat)
    requires i < |reg|
    requires forall j :: 0 <= j < i ==> reg[j].key != reg[i].key
    ensures Lookup(reg, reg[i].key) == Some(reg[i])
  {
    if i > 0 {
      LookupFirst(reg[1..], i - 1);
    }
  }

  /** End of file on the terminal reads as the empty line, which is not
      a key: the loop prints "invalid", runs nothing and goes on. */
  lemma EndOfInputIsInvalid(m: Machine)
    requires m.phase == Running && m.world.tty != [] && m.world.tty[0] == Line("")
    ensures Numeric(Actions)
    ensures var t := Step(Actions, m);
      && t.out == [Say(Menu(ShowMenu(Actions))), Say(InvalidChoice)]
      && Commands(t.out) == []
      && t.next == Machine(Running, m.world.(tty := m.world.tty[1..]))
  {
    ActionsNumeric();
    EmptyLineIsInvalid(Actions, m);
  }

  /** The same for any registry whose keys are digit strings. */
  lemma EmptyLineIsInvalid(reg: seq<Entry>, m: Machine)
    requires Numeric(reg)
    requires m.phase == Running && m.world.tty != [] && m.world.tty[0] == Line("")
    ensures var t := Step(reg, m);
      && t.out == [Say(Menu(ShowMenu(reg))), Say(InvalidChoice)]
      && Commands(t.out) == []
      && t.next == Machine(Running, m.world.(tty := m.world.tty[1..]))
  {
    assert Strip("") == "";
    EmptyIsNoKey(reg);
    UnknownChoiceRunsNothing(reg, m, "");
  }

  /** Keys are digit strings, so the empty line names no action. */
  lemma EmptyIsNoKey(reg: seq<Entry>)
    requires Numeric(reg)
    ensures Lookup(reg, "").None?
  {
    assert !IsDigits("");
  }

  lemma ThirteenUnknown()
    ensures Lookup(Actions, "13").None?
  {
    ActionsValues();
    var k := "13";
    assert k[..1] == "1";
    assert IsDigits(k) && DecimalValue(k) == 13;
    AboveAllKeys(Actions, k);
  }

  /** A key whose value exceeds every registered key names no action. */
  lemma AboveAllKeys(reg: seq<Entry>, key: string)
    requires Numeric(reg) && IsDigits(key)
    requires forall i :: 0 <= i < |reg| ==> KeyValue(reg[i]) < DecimalValue(key)
    ensures Lookup(reg, key).None?
  {
  }
}
