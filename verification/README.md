# server_init.py, modelled in Dafny

`server_init.py` is an interactive, root-only menu tool for bootstrapping a
Linux server. This project models its decision layer as pure functions:

- the SSH port change (rewriting `sshd_config`);
- the firewall rule builder (`ufw <action> <port>/tcp`);
- the time-zone chooser;
- the `gai.conf` append;
- the action registry and its numerically sorted menu;
- the top-level loop: the root gate, exit on `0`, "invalid" for unknown
  keys, and handler failures caught so the loop goes on.

Every handler is a function from a `World` to an `Outcome`. A `World`
holds four things:

- the effective user id;
- the files, as a map from path to a sequence of line chunks;
- the lines the terminal will deliver;
- for each shell command in turn, whether it exits with status 0.

An `Outcome` holds a status (`Done`, `Raised(error)`, or `Stalled` when
the world ran out of input), the world left behind, and a trace of effects:
`Backup(path)`, `Write(path, lines)`, `Command(cmd)` and `Say(message)`.

`Follows` ties the trace to the world: the user id is kept, input is only
consumed from the front, and replaying the trace's file effects
(`ApplyAll`) gives exactly the files left behind. Every handler and every
loop step ensures `Follows`.

The top level is a state machine. Its phases are `AwaitingRoot`,
`Running` and `Exited(code)`. `Step` makes one transition and `RunFrom`
iterates it until the session exits or the world runs out.

Modules, one file each:

| module | file | covers |
|---|---|---|
| `Text` | `text.dfy` | strip, isdigit, lower and int() |
| `Host` | `host.dfy` | world, effects, `tty_input` and `run` |
| `Seqs` | `seqs.dfy` | an order-keeping filter |
| `SshPort` | `sshd.dfy` | `change_ssh_port` |
| `Firewall` | `firewall.dfy` | `firewall_manage` |
| `Timezone` | `timezone.dfy` | `change_timezone` |
| `Ipv6` | `ipv6.dfy` | `auto_ipv6_priority` |
| `Registry` | `registry.dfy` | `ACTIONS` and `show_menu` |
| `Session` | `session.dfy` | `check_root` and `main` |

The menu read (server_init.py line 172) sits outside the `try`, so a
terminal failure there ends the program. The model ends the session with
`Exited(1)` and a `Crash` message. `Session.Step` therefore has two ways
into `Exited` besides the root check: the farewell after `0`, and an
unreadable terminal at the menu.

Every read of the terminal and every shell command uses up one entry of
the world, whether it succeeds or fails. So after a handler's command
fails and the error is caught, the next command reads the next exit
status.

## Model

| member | source | states |
|---|---|---|
| Text.Strip | server_init.py:18 | The stripped line is no longer than the input and has no whitespace at either end. |
| Text.StripPadded | server_init.py:18 | Any whitespace around a trimmed string is exactly what stripping removes. |
| Text.StripFrames | server_init.py:18 | Every line is its stripped text framed by whitespace on both sides. |
| Text.StripIdempotent | server_init.py:33 | Stripping an already stripped line, as `change_ssh_port` does, changes nothing. |
| Text.Lower | server_init.py:61 | Lower-casing keeps the length, changes only upper-case letters, and maps each one to its lower-case partner. |
| Text.LowerFixesLowercase | server_init.py:61 | A string with no upper-case letter is its own lower-case form. |
| Host.TtyInput | server_init.py:13-20 | A read yields the next terminal line, stripped, and consumes it. A missing terminal raises the interaction error, and that attempt is consumed too. |
| Host.Shell | server_init.py:8-10 | A command succeeds exactly when its exit status is 0. Otherwise `run` raises `CommandFailed` naming it. Either way the command uses up its exit status. |
| Host.RunThen | server_init.py:44-46 | The command comes right after the preceding effects. The success messages follow only if it exits 0, and a failure raises naming it. The command uses up exactly one exit status, whether it fails or not. |
| SshPort.ChangeSshPort | server_init.py:29-46 | A non-digit port (including empty) prints one message and leaves files and commands untouched. A valid port yields, in order, a backup of the old text, the rewritten file, then the restart. A missing config raises. |
| SshPort.RewriteKeepsOthersInOrder | server_init.py:39-40 | Every non-Port line stays, unchanged, in its original relative order. No Port line survives, and the new Port line is last. |
| SshPort.RewriteLinesComeFromInput | server_init.py:39 | Every kept line is an input line that is not a Port line. |
| SshPort.NoPortLinesKeptWhole | server_init.py:39-42 | A config without Port lines is kept whole, with the new Port line appended. |
| SshPort.RewriteSinglePortLine | server_init.py:39-40 | After the rewrite there is exactly one Port line, the last, and it strips to `Port <port>`. |
| Firewall.UfwCommand | server_init.py:63-66 | A command exists exactly when the action is allow, deny or delete and the port is all digits. |
| Firewall.BuiltCommandParses | server_init.py:66 | A built ufw command parses back to its action and port. |
| Firewall.ParsedCommandBuilt | server_init.py:66 | A parsed command is exactly the one built from the action and port it parses to. |
| Firewall.UfwCommandParses | server_init.py:63-66 | Building and parsing are inverse: (action, port) builds a command if and only if that command parses back to (action, port). |
| Firewall.FirewallManage | server_init.py:60-67 | Both answers are read first. A command is issued if and only if both are acceptable, and it is then the only command, `ufw <action> <port>/tcp`. Otherwise only the "invalid" message is printed. |
| Timezone.PresetTable | server_init.py:90 | Exactly the choices 1 to 4 have a preset zone. Each preset is non-empty and they are pairwise different. |
| Timezone.Settle | server_init.py:99-103 | A missing or empty zone prints "invalid" and runs nothing. Otherwise `timedatectl set-timezone <zone>` is the one added command, and it succeeds exactly when it exits 0. |
| Timezone.Manual | server_init.py:95-103 | The stripped manual entry is set unless it is empty, in which case "invalid" is printed. |
| Timezone.Choose | server_init.py:89-101 | Choice 0 does nothing further and presets set their zone. Choice 5 asks for a zone. Anything else is invalid and runs nothing. |
| Timezone.ChangeTimezone | server_init.py:77-103 | The current time is always shown first with `timedatectl`. If that fails the action raises before reading a choice, and only that command's exit status is used up. Otherwise the choices are offered and one is read. |
| Timezone.ZoneChoice | server_init.py:89-103 | After `timedatectl`: 0 runs nothing more, 1 to 4 run only the set command for their preset, and any other choice except 5 prints "invalid". |
| Timezone.ManualZone | server_init.py:94-103 | Choice 5 sets the stripped entered zone, or prints "invalid" and runs nothing when it is empty. |
| Ipv6.AutoIpv6Priority | server_init.py:126-133 | A backup is taken exactly when gai.conf exists, and it holds the old content. The file becomes its old content (or nothing) plus the directive. No command runs. |
| Ipv6.RunTwiceAppendsTwice | server_init.py:129-132 | There is no de-duplication. A second run appends the directive again, and its backup holds the once-modified file. |
| Registry.InsertAdds | server_init.py:162 | Inserting adds exactly the new entry, no more and no less. |
| Registry.InsertBound | server_init.py:162 | Inserting keeps every lower bound on the keys. |
| Registry.InsertSorted | server_init.py:162 | Inserting into a key-sorted sequence keeps it sorted. |
| Registry.SortByKey | server_init.py:162 | The result is sorted ascending by the integer value of the keys. |
| Registry.SortPermutes | server_init.py:162 | Sorting is a permutation of the registry. |
| Registry.SortKeepsSorted | server_init.py:162 | A registry already in key order is listed as declared. |
| Registry.MenuOrder | server_init.py:158-164 | The menu lists every entry once, in ascending numeric key order, and ends with the exit entry. |
| Registry.ActionsSorted | server_init.py:142-155 | The tool's registry keys are the numbers 1 to 12, declared in ascending order: the i-th declared key has the value i + 1. |
| Registry.ActionsValues | server_init.py:142-155 | The i-th declared key is a digit string whose integer value is i + 1. |
| Registry.ActionsKeys | server_init.py:142-155 | The registry's keys are "1" to "12". |
| Registry.MenuOfSorted | server_init.py:162-164 | A registry declared in key order is shown in declaration order, followed by "0". |
| Registry.ActionsMenu | server_init.py:142-164 | The tool's menu shows keys 1 to 12 in numeric order (10 to 12 after 9, not after 1), then 0. |
| Registry.Lookup | server_init.py:176 | `ACTIONS.get` finds nothing exactly when no entry has the key. Otherwise it finds a registry entry with exactly that key. |
| Session.LookupFindsKeys | server_init.py:176 | A lookup succeeds if and only if the key is one of the registry's keys. |
| Session.ActionKeys | server_init.py:176 | Only the keys 1 to 12 name an action, so 0 and 13 do not. |
| Session.RunAll | server_init.py:70-74 | Constant commands run in order and stop at the first failure. The trace is a prefix of the commands. All of them run when it finishes, and a failure names the last command issued. Each issued command, the failing one included, uses up one exit status. |
| Session.RunAllDone | server_init.py:70-74 | A fixed action finishes exactly when each of its commands exits 0. |
| Session.IssueCommands | server_init.py:70-74 | The trace of issued commands lists exactly those commands. |
| Session.Perform | server_init.py:182 | Every handler keeps the world consistent with its trace. |
| Session.Wrap | server_init.py:180-185 | A handler's trace comes after its title. A raised error is reported, then the completion notice, unless the handler never finished. The loop stays running. |
| Session.Dispatch | server_init.py:176-185 | An unknown key prints "invalid" and changes nothing. A known key runs its handler inside the reporting of `main`. |
| Session.Pass | server_init.py:170-185 | Each pass shows the menu and reads a choice. "0" exits with status 0. An unreadable terminal ends with status 1 and a crash message. Otherwise the choice is dispatched and, if the pass completes, it has consumed the choice. |
| Session.Step | server_init.py:23-26 | Without root, the session prints the instruction and exits with status 1. With root it enters the loop. Every exit carries its exit notice. |
| Session.NoticeLast | server_init.py:173-175 | The exit notice is the last thing printed, whatever came before. |
| Session.NonRootStops | server_init.py:23-26 | For a non-root user the whole session is the root message and exit status 1, with no menu. |
| Session.ExitStatus | server_init.py:168-185 | A session ends only with status 0 after the farewell, or status 1 after the root message or an unreadable terminal at the menu. A handler failure never ends it. |
| Session.FailureIsCaught | server_init.py:181-185 | A handler that raises is reported, followed by the completion notice. The session stays in the loop. |
| Session.KeepsRunning | server_init.py:170-185 | While the terminal stays readable and "0" is never entered, the session never exits, whatever the handlers do. |
| Session.TraceAccountsForFiles | server_init.py:168-185 | Replaying the session's file effects on the starting files gives the files it leaves, and the user id never changes. |
| Session.UnknownChoiceRunsNothing | server_init.py:176-179 | An unknown key prints the menu and "invalid", runs no command, and the loop continues with the choice consumed. |
| Session.ThirteenIsInvalid | server_init.py:176-179 | Choosing 13 from the tool's menu prints "invalid", runs nothing, and the next pass shows the menu again. |
| Session.EndOfInputIsInvalid | server_init.py:172-179 | At end of file the terminal yields the empty line; the loop prints the menu and "invalid", runs no command, and goes on with that line consumed. |
| Session.EmptyLineIsInvalid | server_init.py:172-179 | For any registry whose keys are digit strings, an empty line at the menu names no action: the menu and "invalid" are printed, no command runs, and the line is consumed. |
| Session.FixedDispatch | server_init.py:180-185 | Choosing a one-command action prints its title and runs the command. On failure it reports the error, and it always ends with the completion notice. The command uses up exactly one exit status, and the loop stays running. |
| Session.FailureThenSuccess | server_init.py:180-185 | When one action's command fails, the error is reported and caught. An action chosen next reads the following exit status, so if that status is 0 it completes without an error. |
| Session.UpdateAndPasswd | server_init.py:136-155 | The update (2) and the password change (12) each run one command, and the password change runs `passwd`. |
| Session.LookupFirst | server_init.py:176 | A lookup returns the entry with the key when no earlier entry has it. |

## Left out

- Running shell commands (`subprocess.run`) is not modelled. A command is a trace entry, and the world says only whether it exits with status 0. The non-zero exit code that `CalledProcessError` carries into the failure message (server_init.py:184) is not modelled.
- Reading `/dev/tty` is not modelled. A read takes the next entry of the world's terminal lines, and a failed open is the `NoTerminal` entry.
- Prompts and the printed Chinese messages are not modelled. Messages are tags (`Msg`), and menu titles are English renderings.
- The messages printed by the fixed-command actions (update, UFW install, log clearing, Nginx, nftables, passwd) are not modelled. Only their commands are.
- File contents are sequences of line chunks, and `shutil.copy`, `open` and `writelines` are map updates. Universal-newline re-splitting on a later read is not modelled, so a rewritten config's chunk `"\nPort N\n"` stays one element. In the source, a later run reads that chunk as a blank line and a Port line and keeps the blank line. Each repeated `change_ssh_port` run therefore adds one blank line to the file in the source but not in the model.
- Failures of `open` and `shutil.copy` other than a missing `sshd_config` are not modelled, such as permissions or a full disk. Nor is `gai.conf` failing to open for append.
- `str.strip`, `str.isdigit` and `str.lower` are restricted to ASCII. Python's Unicode whitespace, digits and case mappings are not modelled.
- Text.Lower: does not model Python's Unicode case mapping. Only A to Z are lowered.
- The meaning of the `gai.conf` directive is not modelled; the directive is an opaque constant. Under glibc's address-selection rules (RFC 6724, section 2.1) it raises the precedence of IPv4-mapped addresses.
- Exceptions that are not `Exception`s are not modelled, such as `KeyboardInterrupt`. End of file on the terminal is modelled: `readline` then returns the empty line, which the loop reports as an invalid choice.
- A world that runs out of terminal lines or exit statuses leaves the session stalled (`Stalled` for a handler, `stalled` for a transition). This stands for "has not got further", not an outcome of the program.
- Session.RunFrom and Session.Main: carry no contract of their own. Their properties are stated by ExitStatus, KeepsRunning, TraceAccountsForFiles and NonRootStops.
