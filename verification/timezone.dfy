/**
 Viewing or changing the time zone (`change_timezone`): show the current
 time with `timedatectl`, offer four preset zones, manual entry and
 cancel, and set the chosen zone.
 */
module Timezone {
  import opened Text
  import opened Host

  const ShowTime: string := "timedatectl"

  function SetZone(zone: string): string {
    "timedatectl set-timezone " + zone
  }

  /** The preset zones, keyed by menu choice. */
  function Preset(choice: string): Option<string> {
    if choice == "1" then Some("Asia/Shanghai")
    else if choice == "2" then Some("Asia/Tokyo")
    else if choice == "3" then Some("Asia/Singapore")
    else if choice == "4" then Some("UTC")
    else None
  }

  /** Exactly the choices 1 to 4 have presets, each a different,
      non-empty zone. */
  lemma PresetTable(a: string, b: string)
    ensures Preset(a).Some? <==> a in {"1", "2", "3", "4"}
    ensures Preset(a).Some? ==> Preset(a).value != ""
    ensures Preset(a).Some? && Preset(a) == Preset(b) ==> a == b
  {
  }

  /** The end of the action once the zone is resolved: a missing or empty
      zone is reported invalid and nothing runs; otherwise the zone is set. */
  function Settle(w: World, pre: seq<Effect>, zone: Option<string>): (o: Outcome)
    requires Silent(pre)
    ensures Follows(w, o) && o.world.tty == w.tty
    ensures |o.trace| > |pre| && o.trace[..|pre|] == pre
    ensures zone.None? || zone.value == "" ==>
              o == Outcome(Done, w, pre + [Say(InvalidChoice)])
              && Commands(o.trace) == Commands(pre)
    ensures zone.Some? && zone.value != "" ==>
              && Commands(o.trace) == Commands(pre) + [SetZone(zone.value)]
              && (o.status.Done? <==> (w.exits != [] && w.exits[0]))
  {
    ApplySilent(w.fs, pre);
    if zone.None? || zone.value == "" then
      SilentAppend(pre, [Say(InvalidChoice)]);
      ApplySilent(w.fs, pre + [Say(InvalidChoice)]);
      CommandsAppend(pre, [Say(InvalidChoice)]);
      Outcome(Done, w, pre + [Say(InvalidChoice)])
    else
      var cmd := SetZone(zone.value);
      var after := [Say(ZoneSet(zone.value))];
      var o := RunThen(w, pre, cmd, after);
      CommandsAppend(pre, [Command(cmd)]);
      CommandsAppend(pre + [Command(cmd)], after);
      o
  }

  /** Choice 5: read a zone typed by hand and set it unless it is empty. */
  function Manual(w: World, pre: seq<Effect>): (o: Outcome)
    requires Silent(pre)
    ensures Follows(w, o)
    ensures |o.trace| >= |pre| && o.trace[..|pre|] == pre
    ensures w.tty != [] && w.tty[0].Line? ==>
              var zone := Strip(w.tty[0].text);
              && (zone == "" ==> o.status.Done? && o.trace == pre + [Say(InvalidChoice)])
              && (zone != "" ==> Commands(o.trace) == Commands(pre) + [SetZone(zone)])
  {
    ApplySilent(w.fs, pre);
    match TtyInput(w)
    case Stalled => Outcome(Status.Stalled, w, pre)
    case Raise(e, w2) => Outcome(Raised(e), w2, pre)
    case Got(entry, w1) =>
      StripIdempotent(w.tty[0].text);
      Settle(w1, pre, Some(Strip(entry)))
  }

  /** The part of `change_timezone` after the zone choices are offered:
      read a choice and act on it. */
  function Choose(w: World, pre: seq<Effect>): (o: Outcome)
    requires Silent(pre)
    ensures Follows(w, o)
    ensures |o.trace| >= |pre| && o.trace[..|pre|] == pre
    ensures w.tty != [] && w.tty[0].Line? ==>
              var choice := Strip(w.tty[0].text);
              && (choice == "0" ==> o.status.Done? && o.trace == pre)
              && (Preset(choice).Some? ==>
                    Commands(o.trace) == Commands(pre) + [SetZone(Preset(choice).value)])
              && (choice != "0" && choice != "5" && Preset(choice).None? ==>
                    o.status.Done? && o.trace == pre + [Say(InvalidChoice)])
              && (choice == "5" ==> o == Manual(w.(tty := w.tty[1..]), pre))
  {
    ApplySilent(w.fs, pre);
    match TtyInput(w)
    case Stalled => Outcome(Status.Stalled, w, pre)
    case Raise(e, w2) => Outcome(Raised(e), w2, pre)
    case Got(choice, w1) =>
      if choice == "0" then Outcome(Done, w1, pre)
      else if choice == "5" then Manual(w1, pre)
      else Settle(w1, pre, Preset(choice))
  }

  /** Printed and run before a choice is read. */
  const Shown: seq<Effect> := [Say(CurrentTime), Command(ShowTime)]
  const Offered: seq<Effect> := Shown + [Say(ZoneChoices)]

  lemma OfferedCommands()
    ensures Silent(Offered) && Commands(Offered) == [ShowTime]
  {
    assert Commands(Shown) == [ShowTime];
    CommandsAppend(Shown, [Say(ZoneChoices)]);
    assert Commands([Say(ZoneChoices)]) == [];
  }

  /** `change_timezone`. */
  function ChangeTimezone(w: World): (o: Outcome)
    ensures Follows(w, o)
    // the current time is always shown first
    ensures |o.trace| >= 2 && o.trace[..2] == Shown
    ensures Commands(o.trace) != [] && Commands(o.trace)[0] == ShowTime
    // a failing `timedatectl` ends the action before any choice is read
    ensures w.exits != [] && !w.exits[0] ==>
              && o.status == Raised(CommandFailed(ShowTime))
              && o.world == w.(exits := w.exits[1..])
    // otherwise the choices are offered and one is read
    ensures w.exits != [] && w.exits[0] ==> o == Choose(w.(exits := w.exits[1..]), Offered)
  {
    OfferedCommands();
    ApplySilent(w.fs, Shown);
    match Shell(w, ShowTime)
    case Stalled => Outcome(Status.Stalled, w, Shown)
    case Raise(e, w2) => Outcome(Raised(e), w2, Shown)
    case Got(_, w1) =>
      var o := Choose(w1, Offered);
      assert o.trace[..2] == Offered[..2] == Shown;
      assert o.trace[..3] == Offered;
      CommandsAppend(Offered, o.trace[3..]);
      assert o.trace == Offered + o.trace[3..];
      o
  }

  /** What each choice does once `timedatectl` has succeeded: 0 cancels,
      1 to 4 set their preset zone, anything else but 5 is rejected. */
  lemma ZoneChoice(w: World)
    requires w.exits != [] && w.exits[0] && w.tty != [] && w.tty[0].Line?
    ensures var o := ChangeTimezone(w);
      var choice := Strip(w.tty[0].text);
      && (choice == "0" ==> o.status.Done? && Commands(o.trace) == [ShowTime])
      && (Preset(choice).Some? ==>
            Commands(o.trace) == [ShowTime, SetZone(Preset(choice).value)])
      && (choice != "0" && choice != "5" && Preset(choice).None? ==>
            && o.status.Done? && Commands(o.trace) == [ShowTime]
            && o.trace[|o.trace| - 1] == Say(InvalidChoice))
  {
    OfferedCommands();
    CommandsAppend(Offered, [Say(InvalidChoice)]);
  }

  /** Choice 5: the entered zone, stripped, is set unless it is empty. */
  lemma ManualZone(w: World)
    requires w.exits != [] && w.exits[0] && |w.tty| >= 2 && w.tty[0].Line?
    requires Strip(w.tty[0].text) == "5" && w.tty[1].Line?
    ensures var o := ChangeTimezone(w);
      var zone := Strip(w.tty[1].text);
      && (zone == "" ==>
            && o.status.Done? && Commands(o.trace) == [ShowTime]
            && o.trace[|o.trace| - 1] == Say(InvalidChoice))
      && (zone != "" ==> Commands(o.trace) == [ShowTime, SetZone(zone)])
  {
    OfferedCommands();
    CommandsAppend(Offered, [Say(InvalidChoice)]);
    var w1 := w.(exits := w.exits[1..]);
    assert w1.(tty := w1.tty[1..]).tty[0] == w.tty[1];
  }
}
