/**
 The world the tool runs in, with every source of input made explicit:
 the effective user id, the files, the lines the operator types at the
 controlling terminal and the exit statuses of the shell commands. The
 tool's observable behaviour is an effect trace; applying the file
 effects of a trace to the starting files yields the files it leaves.
 */
module Host {
  import opened Text

  datatype Option<T> = None | Some(value: T)

  type Path = string

  /** A file is the sequence of line chunks whose concatenation is its text. */
  type FileSystem = map<Path, seq<string>>

  /** The backup copy of `p` lives beside it with a fixed suffix. */
  function BackupOf(p: Path): Path {
    p + ".bak"
  }

  /** One attempt to read the controlling terminal: either a raw line, or
      the terminal device could not be opened. */
  datatype Read = Line(text: string) | NoTerminal

  datatype Error =
    | CommandFailed(cmd: string)   // non-zero exit status of a shell command
    | TerminalUnavailable          // no controlling terminal to read from
    | FileMissing(path: Path)      // copying a file that does not exist

  /** What the tool prints, as tags rather than its (Chinese) text. */
  datatype Msg =
    | NeedRoot
    | Menu(items: seq<MenuItem>)
    | Bye
    | InvalidChoice
    | Executing(title: string)
    | ExecFailed(error: Error)
    | ExecDone
    | Crash(error: Error)
    | PortNotNumeric
    | PortChanged(port: string)
    | OpenPortReminder
    | InvalidInput
    | FirewallUpdated(action: string, port: string)
    | CurrentTime
    | ZoneChoices
    | ZoneSet(zone: string)
    | Ipv6Preferred

  datatype MenuItem = MenuItem(key: string, title: string)

  datatype Effect =
    | Backup(path: Path)                     // copy `path` to BackupOf(path)
    | Write(path: Path, lines: seq<string>)  // replace the contents of `path`
    | Command(cmd: string)                   // run `cmd` through the shell
    | Say(msg: Msg)                          // print a message

  /** The environment a run consumes. `exits[i]` is whether the i-th shell
      command exits with status 0. Running out of `tty` or `exits` means
      the session has not got further than that. */
  datatype World = World(euid: int, fs: FileSystem, tty: seq<Read>, exits: seq<bool>)

  datatype Status = Done | Raised(error: Error) | Stalled

  /** What running one handler produced. */
  datatype Outcome = Outcome(status: Status, world: World, trace: seq<Effect>)

  /** The result of one primitive that reads from the world. Both a value
      and an error use up the input entry they were read from. */
  datatype Reply<T> = Got(value: T, world: World) | Raise(error: Error, world: World) | Stalled

  /** The file effect of one trace entry. Copying a missing file leaves
      the files as they are. */
  function Apply(fs: FileSystem, e: Effect): FileSystem {
    match e
    case Backup(p) => if p in fs then fs[BackupOf(p) := fs[p]] else fs
    case Write(p, lines) => fs[p := lines]
    case Command(_) => fs
    case Say(_) => fs
  }

  function ApplyAll(fs: FileSystem, trace: seq<Effect>): FileSystem
    decreases |trace|
  {
    if trace == [] then fs else ApplyAll(Apply(fs, trace[0]), trace[1..])
  }

  /** Applying a trace in two pieces is applying it whole. */
  lemma {:induction false} ApplyAllAppend(fs: FileSystem, a: seq<Effect>, b: seq<Effect>)
    ensures ApplyAll(fs, a + b) == ApplyAll(ApplyAll(fs, a), b)
    decreases |a|
  {
    if a == [] {
      assert a + b == b;
    } else {
      assert (a + b)[0] == a[0];
      assert (a + b)[1..] == a[1..] + b;
      ApplyAllAppend(Apply(fs, a[0]), a[1..], b);
    }
  }

  lemma ApplyAllPair(fs: FileSystem, e1: Effect, e2: Effect)
    ensures ApplyAll(fs, [e1, e2]) == Apply(Apply(fs, e1), e2)
  {
    assert [e1, e2][1..] == [e2];
    assert [e2][1..] == [];
    assert ApplyAll(fs, [e1, e2]) == ApplyAll(Apply(fs, e1), [e2]);
    assert ApplyAll(Apply(fs, e1), [e2]) == ApplyAll(Apply(Apply(fs, e1), e2), []);
  }

  /** Messages and commands never touch the files. */
  predicate Silent(trace: seq<Effect>) {
    forall i :: 0 <= i < |trace| ==> trace[i].Say? || trace[i].Command?
  }

  lemma SilentAppend(a: seq<Effect>, b: seq<Effect>)
    requires Silent(a) && Silent(b)
    ensures Silent(a + b)
  {
    forall i | 0 <= i < |a + b|
      ensures (a + b)[i].Say? || (a + b)[i].Command?
    {
      if i >= |a| {
        assert (a + b)[i] == b[i - |a|];
      }
    }
  }

  lemma {:induction false} ApplySilent(fs: FileSystem, trace: seq<Effect>)
    requires Silent(trace)
    ensures ApplyAll(fs, trace) == fs
    decreases |trace|
  {
    if trace != [] {
      ApplySilent(fs, trace[1..]);
    }
  }

  /** The shell commands of a trace, in the order they were issued. */
  function Commands(trace: seq<Effect>): (cmds: seq<string>)
    ensures |cmds| <= |trace|
    decreases |trace|
  {
    if trace == [] then []
    else if trace[0].Command? then [trace[0].cmd] + Commands(trace[1..])
    else Commands(trace[1..])
  }

  lemma {:induction false} CommandsAppend(a: seq<Effect>, b: seq<Effect>)
    ensures Commands(a + b) == Commands(a) + Commands(b)
    decreases |a|
  {
    if a == [] {
      assert a + b == b;
    } else {
      assert (a + b)[0] == a[0];
      assert (a + b)[1..] == a[1..] + b;
      CommandsAppend(a[1..], b);
    }
  }

  /** `xs` is what is left of `ys` after dropping some leading elements. */
  predicate SuffixOf<T(==)>(xs: seq<T>, ys: seq<T>) {
    |xs| <= |ys| && xs == ys[|ys| - |xs|..]
  }

  /** What every handler guarantees about the world it hands back: the
      user id is unchanged, inputs are only consumed from the front, and
      the files are exactly what the trace's file effects make of them. */
  predicate Follows(w: World, o: Outcome) {
    && o.world.euid == w.euid
    && SuffixOf(o.world.tty, w.tty)
    && SuffixOf(o.world.exits, w.exits)
    && ApplyAll(w.fs, o.trace) == o.world.fs
  }

  lemma FollowsTrans(w: World, o1: Outcome, o2: Outcome, o: Outcome)
    requires Follows(w, o1) && Follows(o1.world, o2)
    requires o.world == o2.world && o.trace == o1.trace + o2.trace
    ensures Follows(w, o)
  {
    ApplyAllAppend(w.fs, o1.trace, o2.trace);
  }

  /** `tty_input`: reads one line from the controlling terminal and strips
      it; raises when there is no terminal. */
  function TtyInput(w: World): (r: Reply<string>)
    ensures r.Stalled? <==> w.tty == []
    ensures r.Raise? <==> (w.tty != [] && w.tty[0].NoTerminal?)
    ensures r.Raise? ==> r.error == TerminalUnavailable && r.world == w.(tty := w.tty[1..])
    ensures r.Got? ==>
              && Trimmed(r.value)
              && r.world == w.(tty := w.tty[1..])
              && r.value == Strip(w.tty[0].text)
  {
    if w.tty == [] then Reply.Stalled
    else match w.tty[0]
      case NoTerminal => Raise(TerminalUnavailable, w.(tty := w.tty[1..]))
      case Line(text) => Got(Strip(text), w.(tty := w.tty[1..]))
  }

  /** `run`: a shell command with `check=True`; a non-zero exit status
      raises CommandFailed naming the command. */
  function Shell(w: World, cmd: string): (r: Reply<()>)
    ensures r.Stalled? <==> w.exits == []
    ensures r.Raise? <==> (w.exits != [] && !w.exits[0])
    ensures r.Raise? ==> r.error == CommandFailed(cmd)
    // whatever the status, the command has used up its entry
    ensures !r.Stalled? ==> r.world == w.(exits := w.exits[1..])
  {
    if w.exits == [] then Reply.Stalled
    else if w.exits[0] then Got((), w.(exits := w.exits[1..]))
    else Raise(CommandFailed(cmd), w.(exits := w.exits[1..]))
  }

  /** Performs the effects `pre`, then runs `cmd` and, if it succeeds,
      prints `after`: the common tail of every handler. */
  function RunThen(w: World, pre: seq<Effect>, cmd: string, after: seq<Effect>): (o: Outcome)
    requires Silent(after)
    ensures |o.trace| > |pre| && o.trace[..|pre|] == pre && o.trace[|pre|] == Command(cmd)
    ensures o.status.Done? <==> (w.exits != [] && w.exits[0])
    ensures o.status.Done? ==> o.trace == pre + [Command(cmd)] + after
    ensures !o.status.Done? ==> o.trace == pre + [Command(cmd)]
    ensures o.status.Raised? <==> (w.exits != [] && !w.exits[0])
    ensures o.status.Raised? ==> o.status.error == CommandFailed(cmd)
    ensures o.world.tty == w.tty && o.world.fs == ApplyAll(w.fs, pre)
    // the command uses up exactly one exit status, whether it fails or not
    ensures w.exits != [] ==> o.world.exits == w.exits[1..]
    ensures Follows(w, o)
  {
    var issued := pre + [Command(cmd)];
    var w1 := w.(fs := ApplyAll(w.fs, pre));
    ApplySilent(w1.fs, [Command(cmd)]);
    ApplySilent(w1.fs, [Command(cmd)] + after);
    ApplyAllAppend(w.fs, pre, [Command(cmd)]);
    ApplyAllAppend(w.fs, pre, [Command(cmd)] + after);
    assert issued + after == pre + ([Command(cmd)] + after);
    match Shell(w1, cmd)
    case Stalled => Outcome(Status.Stalled, w1, issued)
    case Raise(e, w2) => Outcome(Raised(e), w2, issued)
    case Got(_, w2) => Outcome(Done, w2, issued + after)
  }
}
